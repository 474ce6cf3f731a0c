/** The Gerber reader: a tokenizer object that cuts a character stream into raw
    commands by updating its three fields in a loop, and the parser object that
    holds the default graphics state and collects the dispatched commands. */
module Parser {
  import opened Common
  import opened Tokens
  import opened Commands

  /** Cuts a stream into commands. The stream is the text `f` together with
      the position `pos` up to which it has been read. */
  class Tokenizer {
    const f: string
    var pos: nat
    var insideExtended: bool
    var currentCommand: string
    var lineNo: int

    ghost predicate Valid()
      reads this
    {
      pos <= |f|
    }

    /** The three fields as one state value. */
    function State(): TokState
      reads this
    {
      TokState(insideExtended, currentCommand, lineNo)
    }

    /** A tokenizer on an unread stream starts outside any extended command,
        with an empty buffer, on line 1. */
    constructor (f: string)
      ensures Valid()
      ensures this.f == f && pos == 0
      ensures State() == Start
    {
      this.f := f;
      pos := 0;
      insideExtended := false;
      currentCommand := "";
      lineNo := 1;
    }

    /** Reads the rest of the stream one character at a time and returns the
        commands yielded, in order; the fields end as the scan of the read
        characters from the starting fields leaves them. */
    method Iterate() returns (out: seq<RawCommand>)
      requires Valid()
      modifies this
      ensures Valid() && pos == |f|
      ensures Scan(State(), out) == ScanFrom(old(State()), f[old(pos)..])
    {
      ghost var start := State();
      ghost var p0 := pos;
      out := [];
      while pos < |f|
        invariant p0 <= pos <= |f|
        invariant Scan(State(), out) == ScanFrom(start, f[p0..pos])
      {
        ghost var before := Scan(State(), out);
        ghost var read := f[p0..pos];
        var c := f[pos];
        assert f[p0..pos + 1] == read + [c];
        pos := pos + 1;
        if c == '\n' {
          lineNo := lineNo + 1;
        } else {
          currentCommand := currentCommand + [c];
        }
        if c == '%' {
          if insideExtended {
            out := out + [RawCommand(lineNo, currentCommand)];
            currentCommand := "";
            insideExtended := false;
          } else {
            insideExtended := true;
          }
        } else if c == '*' && !insideExtended {
          out := out + [RawCommand(lineNo, currentCommand)];
          currentCommand := "";
        }
        StepShape(before.state, c);
        assert Scan(State(), out) == Next(before, c);
        ScanSnoc(start, read, c);
      }
      assert f[p0..pos] == f[p0..];
    }
  }

  /** The outcome of dispatching a token sequence: the commands built before
      the first failure, and that failure if there was one. */
  datatype Dispatched = Dispatched(commands: seq<Command>, failure: Option<DispatchError>)

  /** Dispatches every token's text in order and stops at the first one that
      raises. */
  function DispatchAll(tokens: seq<RawCommand>): (r: Dispatched)
    ensures |r.commands| <= |tokens|
    ensures r.failure.None? <==> |r.commands| == |tokens|
  {
    if tokens == [] then Dispatched([], None)
    else
      match FromString(tokens[0].text)
      case Err(e) => Dispatched([], Some(e))
      case Ok(c) =>
        var rest := DispatchAll(tokens[1..]);
        Dispatched([c] + rest.commands, rest.failure)
  }

  /** Command `k` is built from token `k`, one command per token in token
      order, and a failure is the error of the token right after the last
      command built. */
  lemma {:induction false} DispatchAllMatches(tokens: seq<RawCommand>)
    ensures forall k :: 0 <= k < |DispatchAll(tokens).commands| ==>
      FromString(tokens[k].text) == Ok(DispatchAll(tokens).commands[k])
    ensures DispatchAll(tokens).failure.Some? ==>
      FromString(tokens[|DispatchAll(tokens).commands|].text) == Err(DispatchAll(tokens).failure.value)
    decreases |tokens|
  {
    if tokens != [] && FromString(tokens[0].text).Ok? {
      DispatchAllMatches(tokens[1..]);
    }
  }

  /** Token `i`, reached without a failure before it, either builds command
      `i` or raises the failure that ends the dispatch. */
  lemma DispatchAt(tokens: seq<RawCommand>, i: nat)
    requires i < |tokens| && i <= |DispatchAll(tokens).commands|
    ensures i < |DispatchAll(tokens).commands| ==>
      FromString(tokens[i].text) == Ok(DispatchAll(tokens).commands[i])
    ensures i == |DispatchAll(tokens).commands| ==>
      DispatchAll(tokens).failure.Some? && FromString(tokens[i].text) == Err(DispatchAll(tokens).failure.value)
  {
    DispatchAllMatches(tokens);
  }

  /** The setting of a graphics-state parameter that starts without a value. */
  datatype Setting = Unset | Set(value: string)

  /** Reads one Gerber file. The graphics-state parameters the file must set
      start unset; the optional ones start at their defaults. */
  class GerberParser<Context> {
    const filename: string
    const context: Context
    var attributes: map<string, string>
    var commands: seq<Command>

    var coordinateFormat: Setting
    var unit: Setting
    var currentAperture: Setting
    var quadrantMode: Setting
    var interpolationMode: Setting

    var currentPoint: (int, int)
    var stepAndRepeat: (int, int, int, int)
    var levelPolarity: string
    var regionMode: string

    constructor (filename: string, context: Context)
      ensures this.filename == filename && this.context == context
      ensures attributes == map[] && commands == []
      ensures coordinateFormat == Unset && unit == Unset && currentAperture == Unset
      ensures quadrantMode == Unset && interpolationMode == Unset
      ensures currentPoint == (0, 0)
      ensures stepAndRepeat == (1, 1, 0, 0)
      ensures levelPolarity == "dark" && regionMode == "off"
    {
      this.filename := filename;
      this.context := context;
      attributes := map[];
      commands := [];
      coordinateFormat := Unset;
      unit := Unset;
      currentAperture := Unset;
      quadrantMode := Unset;
      interpolationMode := Unset;
      currentPoint := (0, 0);
      stepAndRepeat := (1, 1, 0, 0);
      levelPolarity := "dark";
      regionMode := "off";
    }

    /** Parses the file whose contents are `text`: tokenizes it and appends
        one command per token, in order, until a token fails to dispatch;
        that failure is returned and the commands before it stay appended. */
    method Parse(text: string) returns (failure: Option<DispatchError>)
      modifies this`commands
      ensures commands == old(commands) + DispatchAll(Tokenize(text).out).commands
      ensures failure == DispatchAll(Tokenize(text).out).failure
    {
      var tokenizer := new Tokenizer(text);
      var tokens := tokenizer.Iterate();
      assert text[0..] == text;
      assert tokens == Tokenize(text).out;
      ghost var all := DispatchAll(tokens);
      var i := 0;
      failure := None;
      while i < |tokens|
        invariant 0 <= i <= |all.commands|
        invariant commands == old(commands) + all.commands[..i]
      {
        var cmd := FromString(tokens[i].text);
        DispatchAt(tokens, i);
        if cmd.Err? {
          failure := Some(cmd.error);
          assert all.commands[..i] == all.commands;
          return;
        }
        PrefixSnoc(all.commands, i);
        commands := commands + [cmd.value];
        i := i + 1;
      }
      assert all.commands[..i] == all.commands;
    }
  }

  /** Tokens without a `%` never fail to dispatch, and no token the tokenizer
      yields can raise IndexError, since none is empty. */
  lemma TokensDispatch(s: string)
    ensures forall k :: 0 <= k < |Tokenize(s).out| ==> FromString(Tokenize(s).out[k].text) != Err(IndexError)
    ensures forall k :: 0 <= k < |Tokenize(s).out| && NormalText(Tokenize(s).out[k].text) ==>
      FromString(Tokenize(s).out[k].text).Ok?
    ensures DispatchAll(Tokenize(s).out).failure != Some(IndexError)
  {
    YieldedCommands(s);
    var out := Tokenize(s).out;
    forall k | 0 <= k < |out|
      ensures FromString(out[k].text) != Err(IndexError)
    {
      assert out[k].text != [];
    }
    forall k | 0 <= k < |out| && NormalText(out[k].text)
      ensures FromString(out[k].text).Ok?
    {
      assert out[k].text[0] in out[k].text;
    }
    DispatchAllMatches(out);
  }
}
