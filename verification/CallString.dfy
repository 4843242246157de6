/** Function calls given as text, such as `callMe(100, 0xbeef)`: parsing and printing. */
module CallString {
  import opened Options
  import opened Text

  datatype NameAndArgs = NameAndArgs(name: string, args: seq<string>)

  /** `Panics` is a slice whose start lies behind its end. */
  datatype Outcome = Parsed(call: NameAndArgs) | InvalidCall | Panics

  function Find(s: string, c: char): (r: Option<nat>)
    ensures r.Some? ==> r.value < |s| && s[r.value] == c && c !in s[..r.value]
    ensures r.None? ==> c !in s
  {
    if s == [] then None
    else if s[0] == c then Some(0)
    else
      var r := Find(s[1..], c);
      if r.None? then None
      else
        assert s[..r.value + 1] == [s[0]] + s[1..][..r.value];
        Some(r.value + 1)
  }

  function RFind(s: string, c: char): (r: Option<nat>)
    ensures r.Some? ==> r.value < |s| && s[r.value] == c && c !in s[r.value + 1..]
    ensures r.None? ==> c !in s
  {
    if s == [] then None
    else if s[|s| - 1] == c then Some(|s| - 1)
    else
      var r := RFind(s[..|s| - 1], c);
      assert s == s[..|s| - 1] + [s[|s| - 1]];
      if r.None? then None
      else
        assert s[r.value + 1..] == s[..|s| - 1][r.value + 1..] + [s[|s| - 1]];
        r
  }

  /** The pieces between commas; at least one. */
  function Split(s: string): (pieces: seq<string>)
    ensures |pieces| >= 1
    decreases |s|
  {
    var comma := Find(s, ',');
    if comma.None? then [s] else [s[..comma.value]] + Split(s[comma.value + 1..])
  }

  function TrimAll(pieces: seq<string>): seq<string> {
    seq(|pieces|, i requires 0 <= i < |pieces| => Trim(pieces[i]))
  }

  function Join(args: seq<string>): string {
    if args == [] then "" else if |args| == 1 then args[0] else args[0] + ", " + Join(args[1..])
  }

  function FromFunctionCall(call: string): Outcome {
    var open := Find(call, '(');
    if open.None? then InvalidCall
    else
      var name := call[..open.value];
      if name == "" then InvalidCall
      else
        var close := RFind(call, ')');
        if close.None? then InvalidCall
        else if close.value < open.value + 1 then Panics
        else
          var inner := call[open.value + 1..close.value];
          Parsed(NameAndArgs(name, if Trim(inner) == "" then [] else TrimAll(Split(inner))))
  }

  function ToFnCall(c: NameAndArgs): string {
    c.name + "(" + Join(c.args) + ")"
  }

  /** A call that its own text can stand for. */
  predicate Plain(c: NameAndArgs) {
    && c.name != "" && '(' !in c.name
    && (forall i | 0 <= i < |c.args| :: Trimmed(c.args[i]) && ',' !in c.args[i])
    && c.args != [""]
  }

  // ---- What parsing yields ----

  lemma {:induction false} SplitPieces(s: string)
    ensures forall i | 0 <= i < |Split(s)| :: ',' !in Split(s)[i]
    ensures |Split(s)| == 1 ==> Split(s) == [s]
    decreases |s|
  {
    var comma := Find(s, ',');
    if comma.Some? {
      SplitPieces(s[comma.value + 1..]);
    }
  }

  /** Every accepted text yields a plain call. */
  lemma ParsedIsPlain(call: string)
    requires FromFunctionCall(call).Parsed?
    ensures Plain(FromFunctionCall(call).call)
  {
    var c := FromFunctionCall(call).call;
    var open, close := Find(call, '(').value, RFind(call, ')').value;
    var inner := call[open + 1..close];
    SplitPieces(inner);
    forall i | 0 <= i < |c.args| ensures Trimmed(c.args[i]) && ',' !in c.args[i] {
      var piece := Split(inner)[i];
      var j, k := TrimIsTrimmed(piece);
    }
    if Trim(inner) != "" && |Split(inner)| == 1 {
      assert c.args[0] == Trim(inner);
    }
  }

  // ---- What printing keeps ----

  lemma {:induction false} TrimKeeps(s: string, i: nat)
    requires i < |s| && !IsSpace(s[i])
    ensures Trim(s) != ""
    decreases |s|
  {
    if IsSpace(s[0]) {
      TrimKeeps(s[1..], i - 1);
    } else {
      TrimEndKeeps(s);
    }
  }

  lemma {:induction false} TrimEndKeeps(s: string)
    requires s != [] && !IsSpace(s[0])
    ensures TrimEnd(s) != ""
    decreases |s|
  {
    if IsSpace(s[|s| - 1]) {
      TrimEndKeeps(s[..|s| - 1]);
    }
  }

  lemma {:induction false} FindFirst(s: string, c: char, i: nat)
    requires i < |s| && s[i] == c && c !in s[..i]
    ensures Find(s, c) == Some(i)
    decreases i
  {
    if i > 0 {
      assert s[..i] == [s[0]] + s[1..][..i - 1];
      FindFirst(s[1..], c, i - 1);
    }
  }

  /** The first piece of a joined list. */
  lemma SplitFirst(first: string, rest: string)
    requires ',' !in first
    ensures Split(first + ", " + rest) == [first] + Split(" " + rest)
  {
    var s := first + ", " + rest;
    assert s[..|first|] == first && s[|first|] == ',' && s[|first| + 1..] == " " + rest;
    FindFirst(s, ',', |first|);
  }

  lemma TrimPadded(pad: string, arg: string)
    requires Trimmed(arg) && (pad == "" || pad == " ")
    ensures Trim(pad + arg) == arg
  {
    TrimLeadingSpace(arg);
    assert "" + arg == arg;
  }

  lemma SplitJoinOne(arg: string, pad: string)
    requires Trimmed(arg) && ',' !in arg && (pad == "" || pad == " ")
    ensures TrimAll(Split(pad + arg)) == [arg]
  {
    TrimPadded(pad, arg);
    SplitOne(pad + arg);
    TrimAllCons(pad + arg, []);
    assert TrimAll([]) == [] && [pad + arg] + [] == [pad + arg];
  }

  lemma SplitJoinMore(arg: string, rest: string, args: seq<string>, pad: string)
    requires Trimmed(arg) && ',' !in arg && (pad == "" || pad == " ")
    requires TrimAll(Split(" " + rest)) == args
    ensures TrimAll(Split(pad + (arg + ", " + rest))) == [arg] + args
  {
    var first := pad + arg;
    assert TrimAll(Split(first + ", " + rest)) == [Trim(first)] + args by {
      SplitFirst(first, rest);
      TrimAllCons(first, Split(" " + rest));
    }
    assert Trim(first) == arg by {
      TrimPadded(pad, arg);
    }
    assert pad + (arg + ", " + rest) == first + ", " + rest;
  }

  /** Splitting and trimming undoes joining, also behind a blank. */
  lemma {:induction false} SplitJoin(args: seq<string>, pad: string)
    requires args != [] && (pad == "" || pad == " ")
    requires forall i | 0 <= i < |args| :: Trimmed(args[i]) && ',' !in args[i]
    ensures TrimAll(Split(pad + Join(args))) == args
    decreases |args|
  {
    if |args| == 1 {
      SplitJoinOne(args[0], pad);
      assert args == [args[0]];
    } else {
      SplitJoin(args[1..], " ");
      SplitJoinMore(args[0], Join(args[1..]), args[1..], pad);
      assert args == [args[0]] + args[1..];
    }
  }

  lemma SplitOne(s: string)
    requires ',' !in s
    ensures Split(s) == [s]
  {
  }

  lemma TrimAllCons(piece: string, pieces: seq<string>)
    ensures TrimAll([piece] + pieces) == [Trim(piece)] + TrimAll(pieces)
  {
  }

  lemma JoinIsNotBlank(args: seq<string>)
    requires args != [] && args != [""] && forall i | 0 <= i < |args| :: Trimmed(args[i])
    ensures Trim(Join(args)) != ""
  {
    if |args| == 1 {
      assert args == [args[0]];
      TrimLeadingSpace(args[0]);
    } else {
      assert Join(args)[|args[0]|] == ',';
      TrimKeeps(Join(args), |args[0]|);
    }
  }

  /** Parsing the text of a plain call gives the call back. */
  lemma ParsePrinted(c: NameAndArgs)
    requires Plain(c)
    ensures FromFunctionCall(ToFnCall(c)) == Parsed(c)
  {
    var s, n := ToFnCall(c), |c.name|;
    var m := |s| - 1;
    assert s[..n] == c.name && s[n] == '(' && s[m] == ')' && s[n + 1..m] == Join(c.args);
    FindFirst(s, '(', n);
    assert RFind(s, ')') == Some(m);
    if c.args == [] {
      assert Trim("") == "";
    } else {
      JoinIsNotBlank(c.args);
      SplitJoin(c.args, "");
      assert "" + Join(c.args) == Join(c.args);
    }
  }

  /** A call survives printing and parsing exactly if it is plain. */
  lemma RoundTripExactly(c: NameAndArgs)
    ensures FromFunctionCall(ToFnCall(c)) == Parsed(c) <==> Plain(c)
  {
    if Plain(c) {
      ParsePrinted(c);
    }
    if FromFunctionCall(ToFnCall(c)) == Parsed(c) {
      ParsedIsPlain(ToFnCall(c));
    }
  }

  /** An argument with a leading blank is lost. */
  lemma LostCall(c: NameAndArgs)
    requires c == NameAndArgs("f", [" a"])
    ensures FromFunctionCall(ToFnCall(c)) != Parsed(c)
  {
    assert !Trimmed(c.args[0]);
    RoundTripExactly(c);
  }

  /** Printing an accepted text gives a text with the same meaning. */
  lemma Normalises(call: string)
    requires FromFunctionCall(call).Parsed?
    ensures FromFunctionCall(ToFnCall(FromFunctionCall(call).call)) == FromFunctionCall(call)
  {
    ParsedIsPlain(call);
    ParsePrinted(FromFunctionCall(call).call);
  }

  /** The parser panics exactly when a name is followed by '(' and every ')' comes before it. */
  lemma PanicsExactly(call: string)
    ensures FromFunctionCall(call).Panics? <==>
            exists i | 0 < i < |call| :: call[i] == '(' && '(' !in call[..i] && ')' in call[..i] && ')' !in call[i..]
  {
  }

  lemma PanicInput(call: string)
    requires call == "a)("
    ensures FromFunctionCall(call).Panics?
  {
    assert call[2] == '(' && call[..2] == "a)" && call[2..] == "(" && "a)"[1] == ')';
    PanicsExactly(call);
  }

  // ---- What the parser accepts, and what the printer writes ----

  /** A call is invalid exactly without an opening or a closing parenthesis, or without a name. */
  lemma InvalidExactly(call: string)
    ensures FromFunctionCall(call).InvalidCall? <==> '(' !in call || ')' !in call || call[0] == '('
  {
  }

  function Commas(pieces: seq<string>): string {
    if pieces == [] then "" else if |pieces| == 1 then pieces[0] else pieces[0] + "," + Commas(pieces[1..])
  }

  lemma {:induction false} SplitCommas(pieces: seq<string>)
    requires pieces != [] && forall i | 0 <= i < |pieces| :: ',' !in pieces[i]
    ensures Split(Commas(pieces)) == pieces
    decreases |pieces|
  {
    if |pieces| == 1 {
      SplitOne(pieces[0]);
    } else {
      var first, rest := pieces[0], Commas(pieces[1..]);
      var s := first + "," + rest;
      SplitCommas(pieces[1..]);
      assert s[..|first|] == first && s[|first|] == ',' && s[|first| + 1..] == rest;
      FindFirst(s, ',', |first|);
      assert pieces == [first] + pieces[1..];
    }
  }

  /**
   The name is what stands before the first parenthesis; the arguments are the pieces between the commas
   up to the last closing parenthesis, trimmed, or none if all of that is blank.
   */
  lemma ParsesPieces(call: string, name: string, pieces: seq<string>, rest: string)
    requires call == name + "(" + Commas(pieces) + ")" + rest
    requires name != "" && '(' !in name && ')' !in rest
    requires pieces != [] && forall i | 0 <= i < |pieces| :: ',' !in pieces[i]
    ensures FromFunctionCall(call).Parsed?
    ensures var c := FromFunctionCall(call).call;
            && c.name == name
            && (AllSpace(Commas(pieces)) ==> c.args == [])
            && (!AllSpace(Commas(pieces)) ==>
                  |c.args| == |pieces| && forall i | 0 <= i < |pieces| :: c.args[i] == Trim(pieces[i]))
  {
    ParsesInner(call, name, Commas(pieces), rest);
    SplitCommas(pieces);
    BlankIsAllSpace(Commas(pieces));
  }

  lemma ParsesInner(call: string, name: string, inner: string, rest: string)
    requires call == name + "(" + inner + ")" + rest && name != "" && '(' !in name && ')' !in rest
    ensures FromFunctionCall(call) == Parsed(NameAndArgs(name, if Trim(inner) == "" then [] else TrimAll(Split(inner))))
  {
    var n, m := |name|, |name| + 1 + |inner|;
    assert call[..n] == name && call[n] == '(' && call[n + 1..m] == inner && call[m] == ')' && call[m + 1..] == rest;
    ParsesAt(call, n, m);
  }

  lemma ParsesAt(call: string, n: nat, m: nat)
    requires 0 < n < m < |call| && call[n] == '(' && '(' !in call[..n] && call[m] == ')' && ')' !in call[m + 1..]
    ensures FromFunctionCall(call) ==
            var inner := call[n + 1..m];
            Parsed(NameAndArgs(call[..n], if Trim(inner) == "" then [] else TrimAll(Split(inner))))
  {
    FindFirst(call, '(', n);
    RFindLast(call, ')', m);
  }

  lemma {:induction false} RFindLast(s: string, c: char, i: nat)
    requires i < |s| && s[i] == c && c !in s[i + 1..]
    ensures RFind(s, c) == Some(i)
    decreases |s|
  {
    var n := |s| - 1;
    if i < n {
      assert s[i + 1..] == s[..n][i + 1..] + [s[n]];
      RFindLast(s[..n], c, i);
    }
  }

  /** Arguments are printed with a comma and a blank between them. */
  lemma PrintedText(name: string, a: string, b: string)
    ensures ToFnCall(NameAndArgs(name, [a, b])) == name + "(" + a + ", " + b + ")"
  {
    var args := [a, b];
    assert args[1..] == [b] && Join(args) == a + ", " + b;
  }
}
