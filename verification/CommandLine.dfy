/** The Windows launch-argument splitter (fsq_agent/config/_loader.py:230-275): an index-driven
    scanner with the backslash-run rule of the Microsoft C runtime, a printer for the same
    rules, and the proof that the scanner inverts the printer. */
module CommandLine {
  import opened Wrappers

  const BACKSLASH: char := '\\'
  const QUOTE: char := '"'

  /** Python's str.isspace() on one character. */
  predicate IsSpace(c: char) {
    var n := c as int;
    || 0x09 <= n <= 0x0D || 0x1C <= n <= 0x20 || n == 0x85 || n == 0xA0 || n == 0x1680
    || 0x2000 <= n <= 0x200A || n == 0x2028 || n == 0x2029 || n == 0x202F || n == 0x205F || n == 0x3000
  }

  function Slashes(n: nat): (s: string)
    ensures |s| == n && forall i | 0 <= i < n :: s[i] == BACKSLASH
  {
    seq(n, _ => BACKSLASH)
  }

  /** Length of the run of backslashes that s starts with. */
  function SlashRun(s: string): (n: nat)
    ensures n <= |s|
    ensures forall i | 0 <= i < n :: s[i] == BACKSLASH
    ensures n < |s| ==> s[n] != BACKSLASH
  {
    if s == [] || s[0] != BACKSLASH then 0 else 1 + SlashRun(s[1..])
  }

  /** What remains to be returned when the scanner has s left, `arg` collected for the current
      token, and the two flags. None is the "No closing quotation" error. */
  function Split(s: string, arg: string, inQuotes: bool, started: bool): Option<seq<string>>
    decreases |s|
  {
    if s == [] then
      if inQuotes then None else Some(if started then [arg] else [])
    else if IsSpace(s[0]) && !inQuotes then
      if started then Prepend([arg], Split(s[1..], "", false, false)) else Split(s[1..], arg, false, false)
    else if s[0] == BACKSLASH then
      var n := SlashRun(s);
      if n < |s| && s[n] == QUOTE then
        if n % 2 == 1 then Split(s[n + 1..], arg + Slashes(n / 2) + [QUOTE], inQuotes, true)
        else Split(s[n + 1..], arg + Slashes(n / 2), !inQuotes, true)
      else
        Split(s[n..], arg + Slashes(n), inQuotes, true)
    else if s[0] == QUOTE then
      Split(s[1..], arg, !inQuotes, true)
    else
      Split(s[1..], arg + [s[0]], inQuotes, true)
  }

  function Prepend(args: seq<string>, rest: Option<seq<string>>): Option<seq<string>> {
    if rest.None? then None else Some(args + rest.value)
  }

  function SplitLine(value: string): Option<seq<string>> {
    Split(value, "", false, false)
  }

  /** The scanner itself. */
  method SplitWindowsCommandLine(value: string) returns (r: Option<seq<string>>)
    ensures r == SplitLine(value)
  {
    hide Split, SlashRun, Slashes;
    var args: seq<string> := [];
    var arg := "";
    var inQuotes, tokenStarted := false, false;
    var index := 0;
    assert value[0..] == value;
    assert SplitLine(value).Some? ==> args + SplitLine(value).value == SplitLine(value).value;
    while index < |value|
      invariant index <= |value|
      invariant !tokenStarted ==> arg == ""
      invariant SplitLine(value) == Prepend(args, Split(value[index..], arg, inQuotes, tokenStarted))
    {
      var c := value[index];
      SplitOne(value, index, arg, inQuotes, tokenStarted);
      if IsSpace(c) && !inQuotes {
        if tokenStarted {
          PrependTwice(args, [arg], Split(value[index + 1..], "", false, false));
          args := args + [arg];
          arg := "";
          tokenStarted := false;
        }
        index := index + 1;
        continue;
      }
      if c == BACKSLASH {
        var slashStart := index;
        while index < |value| && value[index] == BACKSLASH
          invariant slashStart <= index <= |value|
          invariant forall i | slashStart <= i < index :: value[i] == BACKSLASH
        {
          index := index + 1;
        }
        var slashCount := index - slashStart;
        SplitRun(value, slashStart, index, arg, inQuotes, tokenStarted);
        if index < |value| && value[index] == QUOTE {
          arg := arg + Slashes(slashCount / 2);
          if slashCount % 2 == 1 {
            arg := arg + [QUOTE];
          } else {
            inQuotes := !inQuotes;
          }
          tokenStarted := true;
          index := index + 1;
          continue;
        }
        arg := arg + Slashes(slashCount);
        tokenStarted := true;
        continue;
      }
      if c == QUOTE {
        inQuotes := !inQuotes;
        tokenStarted := true;
        index := index + 1;
        continue;
      }
      arg := arg + [c];
      tokenStarted := true;
      index := index + 1;
    }
    assert value[index..] == [];
    SplitNothing(arg, inQuotes, tokenStarted);
    if inQuotes {
      return None;
    }
    if tokenStarted {
      return Some(args + [arg]);
    }
    assert args + [] == args;
    return Some(args);
  }

  /** What the end, and one character that is no backslash, contribute. */
  lemma SplitNothing(arg: string, inQuotes: bool, started: bool)
    ensures Split([], arg, inQuotes, started) == if inQuotes then None else Some(if started then [arg] else [])
  {}

  lemma SplitOne(value: string, index: nat, arg: string, inQuotes: bool, started: bool)
    requires index < |value|
    ensures var c, rest := value[index], value[index + 1..];
            && !IsSpace(BACKSLASH)
            && (c != BACKSLASH ==>
                  Split(value[index..], arg, inQuotes, started)
                  == if IsSpace(c) && !inQuotes then
                       if started then Prepend([arg], Split(rest, "", false, false)) else Split(rest, arg, false, false)
                     else if c == QUOTE then Split(rest, arg, !inQuotes, true)
                     else Split(rest, arg + [c], inQuotes, true))
  {
    assert value[index..][1..] == value[index + 1..];
  }

  lemma PrependTwice(a: seq<string>, b: seq<string>, rest: Option<seq<string>>)
    ensures Prepend(a, Prepend(b, rest)) == Prepend(a + b, rest)
  {
    if rest.Some? {
      assert a + (b + rest.value) == (a + b) + rest.value;
    }
  }

  lemma {:induction false} RunLength(s: string, n: nat)
    requires n <= |s| && forall i | 0 <= i < n :: s[i] == BACKSLASH
    requires n < |s| ==> s[n] != BACKSLASH
    ensures SlashRun(s) == n
  {
    if n > 0 {
      RunLength(s[1..], n - 1);
    }
  }

  /** What the run value[start..index] of backslashes contributes. */
  lemma SplitRun(value: string, start: nat, index: nat, arg: string, inQuotes: bool, started: bool)
    requires start < index <= |value| && forall i | start <= i < index :: value[i] == BACKSLASH
    requires index < |value| ==> value[index] != BACKSLASH
    ensures var n := index - start;
            Split(value[start..], arg, inQuotes, started) ==
            if index == |value| || value[index] != QUOTE then Split(value[index..], arg + Slashes(n), inQuotes, true)
            else if n % 2 == 1 then Split(value[index + 1..], arg + Slashes(n / 2) + [QUOTE], inQuotes, true)
            else Split(value[index + 1..], arg + Slashes(n / 2), !inQuotes, true)
  {
    var s, n := value[start..], index - start;
    RunLength(s, n);
    assert !IsSpace(BACKSLASH);
    assert s[n..] == value[index..];
    if index < |value| {
      assert s[n + 1..] == value[index + 1..];
    }
  }

  // ---- the error: quotes that do not balance ----

  /** Number of quotation marks that switch quoting, read one character at a time: those behind
      an even number of backslashes. `slashes` is the length of the run just read. */
  function Toggles(s: string, slashes: nat): nat {
    if s == [] then 0
    else if s[0] == BACKSLASH then Toggles(s[1..], slashes + 1)
    else if s[0] == QUOTE then (if slashes % 2 == 0 then 1 else 0) + Toggles(s[1..], 0)
    else Toggles(s[1..], 0)
  }

  predicate Odd(n: nat) {
    n % 2 == 1
  }

  lemma {:induction false} TogglesAfterRun(s: string, before: nat)
    ensures Toggles(s, before) == Toggles(s[SlashRun(s)..], before + SlashRun(s))
  {
    if s != [] && s[0] == BACKSLASH {
      TogglesAfterRun(s[1..], before + 1);
      assert s[1..][SlashRun(s[1..])..] == s[SlashRun(s)..];
    } else {
      assert s[0..] == s;
    }
  }

  /** The splitter raises exactly when an odd number of quotation marks switch quoting. */
  lemma {:induction false} RaisesIffUnbalanced(s: string, arg: string, inQuotes: bool, started: bool)
    ensures Split(s, arg, inQuotes, started).None? <==> Odd(Toggles(s, 0)) != inQuotes
    decreases |s|
  {
    if s == [] {
    } else if IsSpace(s[0]) && !inQuotes {
      RaisesIffUnbalanced(s[1..], if started then "" else arg, false, false);
    } else if s[0] == BACKSLASH {
      var n := SlashRun(s);
      TogglesAfterRun(s, 0);
      if n < |s| && s[n] == QUOTE {
        assert s[n..][1..] == s[n + 1..];
        if n % 2 == 1 {
          RaisesIffUnbalanced(s[n + 1..], arg + Slashes(n / 2) + [QUOTE], inQuotes, true);
        } else {
          RaisesIffUnbalanced(s[n + 1..], arg + Slashes(n / 2), !inQuotes, true);
        }
      } else {
        RaisesIffUnbalanced(s[n..], arg + Slashes(n), inQuotes, true);
      }
    } else if s[0] == QUOTE {
      RaisesIffUnbalanced(s[1..], arg, !inQuotes, true);
    } else {
      RaisesIffUnbalanced(s[1..], arg + [s[0]], inQuotes, true);
    }
  }

  // ---- the printer and the round trip ----

  /** An argument as it may be written: `inside` says of each character whether it stands inside quotation
      marks, q whether a quotation mark is open, and `run` backslashes are held back. They double in front of
      a quotation mark that switches quoting; a quotation mark that stands for itself gets one more
      backslash; everything else stands for itself. */
  function Escape(arg: string, inside: seq<bool>, q: bool, run: nat): string
    requires |inside| == |arg|
    decreases |arg|, if arg != [] && inside[0] != q then 1 else 0
  {
    if arg == [] then if q then Slashes(2 * run) + [QUOTE] else Slashes(run)
    else if inside[0] != q then Slashes(2 * run) + [QUOTE] + Escape(arg, inside, inside[0], 0)
    else if arg[0] == BACKSLASH then Escape(arg[1..], inside[1..], q, run + 1)
    else Lead(run, arg[0]) + [arg[0]] + Escape(arg[1..], inside[1..], q, 0)
  }

  function Lead(run: nat, c: char): string {
    if c == QUOTE then Slashes(2 * run + 1) else Slashes(run)
  }

  /** White space must stand inside quotation marks; anything else may. */
  predicate Covers(arg: string, inside: seq<bool>) {
    |inside| == |arg| && forall i | 0 <= i < |arg| :: IsSpace(arg[i]) ==> inside[i]
  }

  /** An argument in front of the end or of white space; the empty one needs a pair of quotation marks. */
  function Word(arg: string, inside: seq<bool>): string
    requires |inside| == |arg|
  {
    if arg == [] then [QUOTE, QUOTE] else Escape(arg, inside, false, 0)
  }

  /** Every choice of where to spend quotation marks, as long as white space is inside them. */
  predicate Printable(args: seq<string>, inside: seq<seq<bool>>) {
    |inside| == |args| && forall i | 0 <= i < |args| :: Covers(args[i], inside[i])
  }

  function Join(args: seq<string>, inside: seq<seq<bool>>): string
    requires Printable(args, inside)
  {
    if args == [] then ""
    else if |args| == 1 then Word(args[0], inside[0])
    else Word(args[0], inside[0]) + " " + Join(args[1..], inside[1..])
  }

  lemma SplitSlashes(k: nat, c: char, rest: string, arg: string, q: bool, started: bool)
    requires c != BACKSLASH
    ensures k == 0 && c != QUOTE && (q || !IsSpace(c)) ==>
              Split([c] + rest, arg, q, started) == Split(rest, arg + [c], q, true)
    ensures k > 0 && c != QUOTE ==>
              Split(Slashes(k) + [c] + rest, arg, q, started) == Split([c] + rest, arg + Slashes(k), q, true)
    ensures k > 0 && c == QUOTE && k % 2 == 1 ==>
              Split(Slashes(k) + [c] + rest, arg, q, started) == Split(rest, arg + Slashes(k / 2) + [QUOTE], q, true)
    ensures k > 0 && c == QUOTE && k % 2 == 0 ==>
              Split(Slashes(k) + [c] + rest, arg, q, started) == Split(rest, arg + Slashes(k / 2), !q, true)
  {
    assert ([c] + rest)[1..] == rest;
    if k > 0 {
      var s := Slashes(k) + [c] + rest;
      RunLength(s, k);
      assert !IsSpace(BACKSLASH);
      assert s[k..] == [c] + rest && s[k + 1..] == rest;
    }
  }

  /** A run of backslashes and the character c after it, which does not switch quoting. */
  lemma SplitLed(n: nat, c: char, after: string, acc: string, q: bool, started: bool)
    requires c != BACKSLASH && (q || !IsSpace(c))
    ensures Split(Lead(n, c) + [c] + after, acc, q, started) == Split(after, acc + Slashes(n) + [c], q, true)
  {
    if c == QUOTE {
      SplitSlashes(2 * n + 1, QUOTE, after, acc, q, started);
    } else if n > 0 {
      SplitSlashes(n, c, after, acc, q, started);
      SplitSlashes(0, c, after, acc + Slashes(n), q, true);
    } else {
      SplitSlashes(0, c, after, acc, q, started);
      assert acc + Slashes(0) == acc && Slashes(0) + [c] + after == [c] + after;
    }
  }

  /** A run of backslashes and a quotation mark that switches quoting. */
  lemma SplitSwitch(n: nat, rest: string, acc: string, q: bool, started: bool)
    ensures Split(Slashes(2 * n) + [QUOTE] + rest, acc, q, started) == Split(rest, acc + Slashes(n), !q, true)
  {
    if n == 0 {
      var s := Slashes(0) + [QUOTE] + rest;
      assert s[1..] == rest && acc + Slashes(0) == acc && !IsSpace(QUOTE);
    } else {
      SplitSlashes(2 * n, QUOTE, rest, acc, q, started);
    }
  }

  /** A run of backslashes at the end of an argument stands for itself. */
  lemma SplitEnd(n: nat, rest: string, acc: string, started: bool)
    requires (rest == [] || IsSpace(rest[0])) && (started || n > 0)
    ensures Split(Slashes(n) + rest, acc, false, started) == Split(rest, acc + Slashes(n), false, true)
  {
    if n == 0 {
      assert Slashes(0) + rest == rest && acc + Slashes(0) == acc;
    } else if rest == [] {
      RunLength(Slashes(n), n);
      assert Slashes(n) + rest == Slashes(n) && Slashes(n)[n..] == [] && !IsSpace(BACKSLASH);
    } else {
      SplitSlashes(n, rest[0], rest[1..], acc, false, started);
      assert Slashes(n) + [rest[0]] + rest[1..] == Slashes(n) + rest && [rest[0]] + rest[1..] == rest;
    }
  }

  lemma Regroup(a: string, b: string, c: string, d: string)
    ensures (a + b + c) + d == a + b + (c + d)
  {}

  lemma AppendRun(acc: string, run: nat, arg: string)
    requires arg != []
    ensures arg[0] == BACKSLASH ==> acc + Slashes(run + 1) + arg[1..] == acc + Slashes(run) + arg
    ensures acc + Slashes(run) + [arg[0]] + Slashes(0) + arg[1..] == acc + Slashes(run) + arg
    ensures acc + Slashes(run) + Slashes(0) + arg == acc + Slashes(run) + arg
  {}

  /** The scanner collects exactly the escaped argument. */
  lemma {:induction false} SplitEscaped(arg: string, inside: seq<bool>, q: bool, run: nat, rest: string, acc: string,
                                        started: bool)
    requires Covers(arg, inside) && (rest == [] || IsSpace(rest[0]))
    requires started || q || run > 0 || arg != []
    ensures Split(Escape(arg, inside, q, run) + rest, acc, q, started)
              == Split(rest, acc + Slashes(run) + arg, false, true)
    decreases |arg|, if arg != [] && inside[0] != q then 1 else 0
  {
    hide Split, Slashes, Lead, IsSpace;
    if arg == [] {
      assert acc + Slashes(run) + arg == acc + Slashes(run);
      if q {
        SplitSwitch(run, rest, acc, q, started);
      } else {
        SplitEnd(run, rest, acc, started);
      }
    } else if inside[0] != q {
      var after := Escape(arg, inside, inside[0], 0);
      Regroup(Slashes(2 * run), [QUOTE], after, rest);
      SplitSwitch(run, after + rest, acc, q, started);
      SplitEscaped(arg, inside, inside[0], 0, rest, acc + Slashes(run), true);
      AppendRun(acc, run, arg);
    } else {
      var c, tail := arg[0], arg[1..];
      AppendRun(acc, run, arg);
      if c == BACKSLASH {
        SplitEscaped(tail, inside[1..], q, run + 1, rest, acc, started);
      } else {
        var after := Escape(tail, inside[1..], q, 0);
        SplitEscaped(tail, inside[1..], q, 0, rest, acc + Slashes(run) + [c], true);
        SplitLed(run, c, after + rest, acc, q, started);
        Regroup(Lead(run, c), [c], after, rest);
      }
    }
  }

  lemma SplitWord(arg: string, inside: seq<bool>, rest: string)
    requires Covers(arg, inside) && (rest == [] || IsSpace(rest[0]))
    ensures Split(Word(arg, inside) + rest, "", false, false) == Split(rest, arg, false, true)
  {
    if arg == [] {
      var s := [QUOTE, QUOTE] + rest;
      assert s[1..] == [QUOTE] + rest && s[1..][1..] == rest && !IsSpace(QUOTE);
    } else {
      SplitEscaped(arg, inside, false, 0, rest, "", false);
      assert "" + Slashes(0) + arg == arg;
    }
  }

  lemma SplitFirst(arg: string, inside: seq<bool>, rest: string)
    requires Covers(arg, inside)
    ensures SplitLine(Word(arg, inside) + (" " + rest)) == Prepend([arg], SplitLine(rest))
    ensures SplitLine(Word(arg, inside)) == Some([arg])
  {
    hide Word;
    SplitWord(arg, inside, " " + rest);
    assert (" " + rest)[1..] == rest;
    SplitWord(arg, inside, "");
    assert Word(arg, inside) + "" == Word(arg, inside);
  }

  lemma JoinFirst(args: seq<string>, inside: seq<seq<bool>>)
    requires Printable(args, inside) && |args| > 1
    ensures Printable(args[1..], inside[1..])
    ensures Join(args, inside) == Word(args[0], inside[0]) + (" " + Join(args[1..], inside[1..]))
  {
    hide Word;
    var a, b, c := Word(args[0], inside[0]), " ", Join(args[1..], inside[1..]);
    assert a + b + c == a + (b + c);
  }

  /** Splitting a printed argument list gives the list back, whatever the arguments contain and whichever
      parts of them stand inside quotation marks. */
  lemma {:induction false} SplitInvertsJoin(args: seq<string>, inside: seq<seq<bool>>)
    requires Printable(args, inside)
    ensures SplitLine(Join(args, inside)) == Some(args)
  {
    hide Split, Word;
    if args == [] {
      NothingToSplit();
    } else if |args| == 1 {
      SplitFirst(args[0], inside[0], "");
      assert args == [args[0]];
    } else {
      SplitFirst(args[0], inside[0], Join(args[1..], inside[1..]));
      JoinFirst(args, inside);
      SplitInvertsJoin(args[1..], inside[1..]);
      assert [args[0]] + args[1..] == args;
    }
  }

  lemma NothingToSplit()
    ensures SplitLine("") == Some([])
  {}

  /** So printing loses nothing: lists that print alike are equal. */
  lemma JoinIsInjective(a: seq<string>, insideA: seq<seq<bool>>, b: seq<string>, insideB: seq<seq<bool>>)
    requires Printable(a, insideA) && Printable(b, insideB)
    requires Join(a, insideA) == Join(b, insideB)
    ensures a == b
  {
    SplitInvertsJoin(a, insideA);
    SplitInvertsJoin(b, insideB);
  }
}
