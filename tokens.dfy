/** The functional specification of the Gerber tokenizer: one character step
    of its state machine, the scan of a whole input, and what a scan produces.
    The tokenizer itself, a class whose loop updates its fields, is in module
    Parser and is proved to compute ScanFrom. */
module Tokens {
  import opened Common

  /** One command cut from the stream, with the line it ends on. */
  datatype RawCommand = RawCommand(line: int, text: string)

  /** The three fields the tokenizer updates. */
  datatype TokState = TokState(insideExtended: bool, current: string, lineNo: int)

  /** A state together with the commands yielded so far. */
  datatype Scan = Scan(state: TokState, out: seq<RawCommand>)

  /** A fresh tokenizer: outside any extended command, empty buffer, line 1. */
  const Start := TokState(false, "", 1)

  /** Whether reading `c` in state `st` yields the buffer: a `%` closing an
      extended command, or a `*` outside one. */
  predicate Flushes(st: TokState, c: char)
  {
    (c == '%' && st.insideExtended) || (c == '*' && !st.insideExtended)
  }

  /** The buffer a step appends to: the old one, plus `c` unless it is a
      newline. */
  function Grown(st: TokState, c: char): string
  {
    if c == '\n' then st.current else st.current + [c]
  }

  /** One iteration of the tokenizer loop on the character `c`. */
  function Step(st: TokState, c: char): Scan
  {
    var current := Grown(st, c);
    var lineNo := if c == '\n' then st.lineNo + 1 else st.lineNo;
    if c == '%' then
      if st.insideExtended then Scan(TokState(false, "", lineNo), [RawCommand(lineNo, current)])
      else Scan(TokState(true, current, lineNo), [])
    else if c == '*' && !st.insideExtended then
      Scan(TokState(st.insideExtended, "", lineNo), [RawCommand(lineNo, current)])
    else
      Scan(TokState(st.insideExtended, current, lineNo), [])
  }

  /** A scan extended by one step on `c`. */
  function Next(r: Scan, c: char): Scan
  {
    var step := Step(r.state, c);
    Scan(step.state, r.out + step.out)
  }

  /** Runs the loop from `st` over all of `s`; the last character is the last
      step. */
  function ScanFrom(st: TokState, s: string): Scan
    decreases |s|
  {
    if s == [] then Scan(st, [])
    else
      Next(ScanFrom(st, s[..|s| - 1]), s[|s| - 1])
  }

  /** What a fresh tokenizer yields on `s`, and the state it ends in. */
  function Tokenize(s: string): Scan
  {
    ScanFrom(Start, s)
  }

  /** `s` with every newline removed. */
  function Stripped(s: string): string
  {
    if s == [] then []
    else Stripped(s[..|s| - 1]) + (if s[|s| - 1] == '\n' then [] else [s[|s| - 1]])
  }

  /** The texts of `out`, concatenated in order. */
  function Joined(out: seq<RawCommand>): string
  {
    if out == [] then []
    else Joined(out[..|out| - 1]) + out[|out| - 1].text
  }

  /** A command cut at a `*` outside `%...%`: it ends in its only `*` and holds
      no `%`. */
  ghost predicate NormalText(t: string)
  {
    |t| > 0 && t[|t| - 1] == '*' && '%' !in t && '*' !in t[..|t| - 1]
  }

  /** A command cut at a closing `%`: it ends in `%` and holds exactly two. */
  ghost predicate ExtendedText(t: string)
  {
    |t| > 0 && t[|t| - 1] == '%' && Count(t, '%') == 2
  }

  /** The shape of every yielded command, relative to the last line read. */
  ghost predicate WellFormed(r: RawCommand, lastLine: int)
  {
    && '\n' !in r.text
    && (NormalText(r.text) || ExtendedText(r.text))
    && 1 <= r.line <= lastLine
  }

  ghost predicate LinesSorted(out: seq<RawCommand>)
  {
    forall i, j :: 0 <= i < j < |out| ==> out[i].line <= out[j].line
  }

  /** The text a fresh tokenizer has read is accounted for by its output and
      its buffer, and its counters reflect the input. */
  ghost predicate TextInvariant(s: string, r: Scan)
  {
    && Joined(r.out) + r.state.current == Stripped(s)
    && r.state.lineNo == 1 + Count(s, '\n')
    && (r.state.insideExtended <==> Count(s, '%') % 2 == 1)
  }

  /** The buffer holds no newline, no `%` or `*` outside an extended command,
      and exactly one `%` inside one. */
  ghost predicate BufferInvariant(r: Scan)
  {
    && '\n' !in r.state.current
    && (!r.state.insideExtended ==> '%' !in r.state.current && '*' !in r.state.current)
    && (r.state.insideExtended ==> Count(r.state.current, '%') == 1)
  }

  /** Every yielded command is well formed and the line numbers are sorted. */
  ghost predicate OutputInvariant(r: Scan)
  {
    && (forall k :: 0 <= k < |r.out| ==> WellFormed(r.out[k], r.state.lineNo))
    && LinesSorted(r.out)
  }

  /** What holds of a fresh tokenizer after reading `s`. */
  ghost predicate Invariant(s: string, r: Scan)
  {
    TextInvariant(s, r) && BufferInvariant(r) && OutputInvariant(r)
  }

  lemma CountSnoc<T>(s: seq<T>, c: T, x: T)
    ensures Count(s + [c], x) == Count(s, x) + (if c == x then 1 else 0)
  {
    assert (s + [c])[..|s|] == s;
  }

  lemma StrippedSnoc(s: string, c: char)
    ensures Stripped(s + [c]) == Stripped(s) + (if c == '\n' then [] else [c])
  {
    assert (s + [c])[..|s|] == s;
  }

  lemma JoinedSnoc(out: seq<RawCommand>, r: RawCommand)
    ensures Joined(out + [r]) == Joined(out) + r.text
  {
    assert (out + [r])[..|out|] == out;
  }

  /** Reading one more character extends the scan of the prefix by one step. */
  lemma ScanSnoc(st: TokState, s: string, c: char)
    ensures ScanFrom(st, s + [c]) == Next(ScanFrom(st, s), c)
  {
    assert (s + [c])[..|s|] == s;
  }

  /** A step either keeps the output and holds the grown buffer, or yields the
      grown buffer on the updated line and empties the buffer. */
  lemma StepShape(st: TokState, c: char)
    ensures Step(st, c).state.lineNo == st.lineNo + (if c == '\n' then 1 else 0)
    ensures Flushes(st, c) ==>
      Step(st, c).out == [RawCommand(Step(st, c).state.lineNo, Grown(st, c))] && Step(st, c).state.current == []
    ensures !Flushes(st, c) ==> Step(st, c).out == [] && Step(st, c).state.current == Grown(st, c)
    ensures Step(st, c).state.insideExtended == (if c == '%' then !st.insideExtended else st.insideExtended)
  {
  }

  /** Yielding the buffer grown by `c` moves it, with `c`, into the output. */
  lemma JoinedFlush(out: seq<RawCommand>, buffer: string, line: int, c: char)
    ensures Joined(out + [RawCommand(line, buffer + [c])]) == (Joined(out) + buffer) + [c]
  {
    JoinedSnoc(out, RawCommand(line, buffer + [c]));
    assert Joined(out) + (buffer + [c]) == (Joined(out) + buffer) + [c];
  }

  /** One step keeps the output followed by the buffer equal to the input
      read so far, without its newlines. */
  lemma NextKeepsJoined(s: string, r: Scan, c: char)
    requires Joined(r.out) + r.state.current == Stripped(s)
    ensures Joined(Next(r, c).out) + Next(r, c).state.current == Stripped(s + [c])
  {
    var st := r.state;
    var n := Next(r, c);
    StepShape(st, c);
    StrippedSnoc(s, c);
    if Flushes(st, c) {
      assert n.out == r.out + [RawCommand(n.state.lineNo, st.current + [c])];
      JoinedFlush(r.out, st.current, n.state.lineNo, c);
      assert n.state.current == [] && Stripped(s + [c]) == Stripped(s) + [c];
      assert Joined(n.out) + [] == Joined(n.out);
    } else if c == '\n' {
      assert n.out == r.out && n.state.current == st.current;
    } else {
      assert n.out == r.out && n.state.current == st.current + [c];
      assert Stripped(s + [c]) == Stripped(s) + [c];
      assert Joined(r.out) + (st.current + [c]) == (Joined(r.out) + st.current) + [c];
    }
  }

  /** One step keeps the line counter one more than the newlines read. */
  lemma NextKeepsLine(s: string, r: Scan, c: char)
    requires r.state.lineNo == 1 + Count(s, '\n')
    ensures Next(r, c).state.lineNo == 1 + Count(s + [c], '\n')
  {
    StepShape(r.state, c);
    CountSnoc(s, c, '\n');
  }

  /** One step keeps the flag set exactly after an odd number of `%`. */
  lemma NextKeepsFlag(s: string, r: Scan, c: char)
    requires r.state.insideExtended <==> Count(s, '%') % 2 == 1
    ensures Next(r, c).state.insideExtended <==> Count(s + [c], '%') % 2 == 1
  {
    StepShape(r.state, c);
    CountSnoc(s, c, '%');
    var k := Count(s, '%');
    if c == '%' {
      assert Count(s + [c], '%') == k + 1;
      assert (k + 1) % 2 == 1 <==> k % 2 != 1;
    } else {
      assert Count(s + [c], '%') == k;
    }
  }

  /** One step keeps the account of the text read and the two counters. */
  lemma NextKeepsText(s: string, r: Scan, c: char)
    requires TextInvariant(s, r)
    ensures TextInvariant(s + [c], Next(r, c))
  {
    NextKeepsJoined(s, r, c);
    NextKeepsLine(s, r, c);
    NextKeepsFlag(s, r, c);
  }

  lemma NextKeepsBuffer(r: Scan, c: char)
    requires BufferInvariant(r)
    ensures BufferInvariant(Next(r, c))
  {
    var st := r.state;
    StepShape(st, c);
    if c != '\n' {
      CountSnoc(st.current, c, '%');
    }
  }

  lemma NextKeepsOutput(r: Scan, c: char)
    requires BufferInvariant(r) && OutputInvariant(r) && r.state.lineNo >= 1
    ensures OutputInvariant(Next(r, c))
  {
    var st := r.state;
    StepShape(st, c);
    var after := Next(r, c);
    if Flushes(st, c) {
      var g := Grown(st, c);
      var t := RawCommand(after.state.lineNo, g);
      assert after.out == r.out + [t];
      assert g[..|g| - 1] == st.current;
      if c == '%' {
        CountSnoc(st.current, c, '%');
        assert ExtendedText(g);
      } else {
        assert NormalText(g);
      }
      assert WellFormed(t, after.state.lineNo);
      forall k | 0 <= k < |after.out|
        ensures WellFormed(after.out[k], after.state.lineNo)
      {
        if k < |r.out| {
          assert after.out[k] == r.out[k];
        }
      }
    } else {
      assert after.out == r.out;
    }
  }

  /** One step keeps the invariant. */
  lemma NextKeepsInvariant(s: string, r: Scan, c: char)
    requires Invariant(s, r)
    ensures Invariant(s + [c], Next(r, c))
  {
    NextKeepsText(s, r, c);
    NextKeepsBuffer(r, c);
    NextKeepsOutput(r, c);
  }

  /** Everything a fresh tokenizer has yielded after reading `s`, followed by
      its unflushed buffer, is `s` without its newlines; the line counter is
      one more than the newlines read; the flag is set exactly after an odd
      number of `%`; every yielded command is well formed, and their line
      numbers never decrease. */
  lemma {:induction false} TokenizeInvariant(s: string)
    ensures Invariant(s, Tokenize(s))
    decreases |s|
  {
    if s == [] {
    } else {
      var init := s[..|s| - 1];
      TokenizeInvariant(init);
      NextKeepsInvariant(init, Tokenize(init), s[|s| - 1]);
      assert init + [s[|s| - 1]] == s;
    }
  }

  /** The concatenated command texts are a prefix of the input with its
      newlines removed, and the part missing is exactly the buffer left
      unflushed at end of input. */
  lemma JoinedIsStrippedPrefix(s: string)
    ensures Joined(Tokenize(s).out) <= Stripped(s)
    ensures Stripped(s)[|Joined(Tokenize(s).out)|..] == Tokenize(s).state.current
  {
    TokenizeInvariant(s);
    var j := Joined(Tokenize(s).out);
    assert Stripped(s) == j + Tokenize(s).state.current;
    assert Stripped(s)[..|j|] == j;
  }

  /** An input that ends right after a flush is reproduced exactly, minus its
      newlines. */
  lemma JoinedWhenFlushed(s: string)
    requires Tokenize(s).state.current == []
    ensures Joined(Tokenize(s).out) == Stripped(s)
  {
    TokenizeInvariant(s);
    assert Joined(Tokenize(s).out) + [] == Joined(Tokenize(s).out);
  }

  /** No yielded command holds a newline, each ends in `*` (then holding no
      `%`) or in `%` (then holding exactly two), line numbers start at 1,
      never decrease, and never pass the line counter. */
  lemma YieldedCommands(s: string)
    ensures forall k :: 0 <= k < |Tokenize(s).out| ==>
      '\n' !in Tokenize(s).out[k].text &&
      (NormalText(Tokenize(s).out[k].text) || ExtendedText(Tokenize(s).out[k].text)) &&
      1 <= Tokenize(s).out[k].line <= 1 + Count(s, '\n')
    ensures LinesSorted(Tokenize(s).out)
  {
    TokenizeInvariant(s);
  }

  /** Reading one more character `c` yields at most one command. It yields one
      exactly when `c` is a `%` closing an extended command or a `*` outside
      one; the command is the old buffer followed by `c`, it carries the line
      `c` stands on, and the buffer is then empty. Every `%` toggles the
      flag. */
  lemma TokenizeAppend(s: string, c: char)
    ensures Tokenize(s + [c]).out[..|Tokenize(s).out|] == Tokenize(s).out
    ensures |Tokenize(s + [c]).out| == |Tokenize(s).out| + (if Flushes(Tokenize(s).state, c) then 1 else 0)
    ensures Flushes(Tokenize(s).state, c) ==>
      Tokenize(s + [c]).out[|Tokenize(s).out|] ==
        RawCommand(1 + Count(s + [c], '\n'), Tokenize(s).state.current + [c]) &&
      Tokenize(s + [c]).state.current == []
    ensures c == '%' ==> Tokenize(s + [c]).state.insideExtended == !Tokenize(s).state.insideExtended
    ensures c != '%' ==> Tokenize(s + [c]).state.insideExtended == Tokenize(s).state.insideExtended
  {
    ScanSnoc(Start, s, c);
    TokenizeInvariant(s);
    CountSnoc(s, c, '\n');
  }
}
