/** The Gerber (RS-274X) command model: the command classes, the two code
    tables of section 4.1 of the Gerber Layer Format Specification, the
    dispatcher that classifies one raw command string, and the two classes that
    extract fields from fixed offsets of their text. */
module Commands {
  import opened Common

  /** The command classes of the reader. A class is what the code tables map a
      code to; applying it to a string builds a Command. */
  datatype CommandClass =
    | UnitCommand                          // MO, section 4.10
    | CoordinateFormatCommand              // FS, section 4.9
    | OffsetCommand                        // OF, deprecated
    | ImagePolarityCommand                 // IP, deprecated
    | LevelPolarityCommand                 // LP
    | MacroApertureCommand                 // AM, section 4.13
    | ApertureDefinitionCommand            // AD, section 4.11
    | SetApertureCommand                   // Dnnn
    | InterpolateCommand                   // D01, section 4.2.2
    | MoveCommand                          // D02, section 4.2.3
    | FlashCommand                         // D03, section 4.2.4
    | LinearInterpolationModeCommand       // G01
    | CWCircularInterpolationModeCommand   // G02
    | CCWCircularInterpolationModeCommand  // G03
    | SingleQuadrantCommand                // G74
    | MultiQuadrantCommand                 // G75
    | EnableRegionModeCommand              // G36
    | DisableRegionModeCommand             // G37
    | CommentCommand                       // G04
    | EOFCommand                           // M02

  /** A built command. Every variant keeps the text it was built from in `s`;
      Unit and CoordinateFormat also keep the field they extract. */
  datatype Command =
    | Unit(s: string, units: string)
    | CoordinateFormat(s: string, format: string)
    | Offset(s: string)
    | ImagePolarity(s: string)
    | LevelPolarity(s: string)
    | MacroAperture(s: string)
    | ApertureDefinition(s: string)
    | SetAperture(s: string)
    | Interpolate(s: string)
    | Move(s: string)
    | Flash(s: string)
    | LinearMode(s: string)
    | CWCircularMode(s: string)
    | CCWCircularMode(s: string)
    | SingleQuadrant(s: string)
    | MultiQuadrant(s: string)
    | EnableRegion(s: string)
    | DisableRegion(s: string)
    | Comment(s: string)
    | EndOfFile(s: string)

  /** The exceptions construction can raise: indexing an empty string, a code
      missing from the extended table, and a failed format assertion. */
  datatype DispatchError = IndexError | KeyError(code: string) | AssertionError

  /** Extended (`%`-delimited) commands, keyed by their two-letter code. */
  const ExtendedCommands: map<string, CommandClass> := map[
    "MO" := UnitCommand,
    "FS" := CoordinateFormatCommand,
    "OF" := OffsetCommand,
    "IP" := ImagePolarityCommand,
    "LP" := LevelPolarityCommand,
    "AM" := MacroApertureCommand,
    "AD" := ApertureDefinitionCommand
  ]

  /** Normal commands, keyed by the three characters before the closing `*`. */
  const NormalCommands: map<string, CommandClass> := map[
    "D01" := InterpolateCommand,
    "D02" := MoveCommand,
    "D03" := FlashCommand,
    "G01" := LinearInterpolationModeCommand,
    "G02" := CWCircularInterpolationModeCommand,
    "G03" := CCWCircularInterpolationModeCommand,
    "G74" := SingleQuadrantCommand,
    "G75" := MultiQuadrantCommand,
    "G36" := EnableRegionModeCommand,
    "G37" := DisableRegionModeCommand,
    "G04" := CommentCommand,
    "M02" := EOFCommand
  ]

  /** The class attribute `deprecated`, false unless a class overrides it. */
  predicate Deprecated(cls: CommandClass)
  {
    cls == OffsetCommand || cls == ImagePolarityCommand
  }

  /** The class a command was built by. */
  function ClassOf(c: Command): CommandClass
  {
    match c
    case Unit(_, _) => UnitCommand
    case CoordinateFormat(_, _) => CoordinateFormatCommand
    case Offset(_) => OffsetCommand
    case ImagePolarity(_) => ImagePolarityCommand
    case LevelPolarity(_) => LevelPolarityCommand
    case MacroAperture(_) => MacroApertureCommand
    case ApertureDefinition(_) => ApertureDefinitionCommand
    case SetAperture(_) => SetApertureCommand
    case Interpolate(_) => InterpolateCommand
    case Move(_) => MoveCommand
    case Flash(_) => FlashCommand
    case LinearMode(_) => LinearInterpolationModeCommand
    case CWCircularMode(_) => CWCircularInterpolationModeCommand
    case CCWCircularMode(_) => CCWCircularInterpolationModeCommand
    case SingleQuadrant(_) => SingleQuadrantCommand
    case MultiQuadrant(_) => MultiQuadrantCommand
    case EnableRegion(_) => EnableRegionModeCommand
    case DisableRegion(_) => DisableRegionModeCommand
    case Comment(_) => CommentCommand
    case EndOfFile(_) => EOFCommand
  }

  /** `str(cmd)`: the text the command was built from. */
  function Text(c: Command): string
  {
    c.s
  }

  /** The acceptance test of the CoordinateFormat constructor: the text starts
      with `%FSLAX` and the X and Y digit pairs are equal. */
  predicate FormatAccepted(s: string)
  {
    StartsWith(s, "%FSLAX") && Slice(s, 6, 8) == Slice(s, 9, 11)
  }

  /** Applies a command class to a string, as `cls(s)` does. Only the
      CoordinateFormat constructor can fail. */
  function Instantiate(cls: CommandClass, s: string): (r: Result<Command, DispatchError>)
    ensures r.Ok? ==> Text(r.value) == s && ClassOf(r.value) == cls
    ensures r.Err? ==> r.error == AssertionError
    ensures r.Err? <==> cls == CoordinateFormatCommand && !FormatAccepted(s)
  {
    match cls
    case UnitCommand => Ok(Unit(s, Slice(s, 3, 5)))
    case CoordinateFormatCommand =>
      if FormatAccepted(s) then Ok(CoordinateFormat(s, Slice(s, 6, 8)))
      else Err(AssertionError)
    case OffsetCommand => Ok(Offset(s))
    case ImagePolarityCommand => Ok(ImagePolarity(s))
    case LevelPolarityCommand => Ok(LevelPolarity(s))
    case MacroApertureCommand => Ok(MacroAperture(s))
    case ApertureDefinitionCommand => Ok(ApertureDefinition(s))
    case SetApertureCommand => Ok(SetAperture(s))
    case InterpolateCommand => Ok(Interpolate(s))
    case MoveCommand => Ok(Move(s))
    case FlashCommand => Ok(Flash(s))
    case LinearInterpolationModeCommand => Ok(LinearMode(s))
    case CWCircularInterpolationModeCommand => Ok(CWCircularMode(s))
    case CCWCircularInterpolationModeCommand => Ok(CCWCircularMode(s))
    case SingleQuadrantCommand => Ok(SingleQuadrant(s))
    case MultiQuadrantCommand => Ok(MultiQuadrant(s))
    case EnableRegionModeCommand => Ok(EnableRegion(s))
    case DisableRegionModeCommand => Ok(DisableRegion(s))
    case CommentCommand => Ok(Comment(s))
    case EOFCommand => Ok(EndOfFile(s))
  }

  /** `Command.from_string`: extended commands are classified by the two
      characters after the leading `%`, normal ones by the three characters
      before the final character, and anything else is an aperture select. */
  function FromString(s: string): (r: Result<Command, DispatchError>)
    ensures s == [] ==> r == Err(IndexError)
    ensures r.Ok? ==> Text(r.value) == s
    ensures s != [] && s[0] != '%' ==> r.Ok?
    ensures r.Err? ==> s == [] || s[0] == '%'
  {
    if s == [] then Err(IndexError)
    else if s[0] == '%' then
      var code := Slice(s, 1, 3);
      if code in ExtendedCommands then Instantiate(ExtendedCommands[code], s)
      else Err(KeyError(code))
    else
      var code := Slice(s, -4, -1);
      if code in NormalCommands then Instantiate(NormalCommands[code], s)
      else Ok(SetAperture(s))
  }

  /** The code each class is registered under in the tables; the empty string
      for aperture select, which is in neither table. */
  function CodeOf(cls: CommandClass): string
  {
    match cls
    case UnitCommand => "MO"
    case CoordinateFormatCommand => "FS"
    case OffsetCommand => "OF"
    case ImagePolarityCommand => "IP"
    case LevelPolarityCommand => "LP"
    case MacroApertureCommand => "AM"
    case ApertureDefinitionCommand => "AD"
    case SetApertureCommand => ""
    case InterpolateCommand => "D01"
    case MoveCommand => "D02"
    case FlashCommand => "D03"
    case LinearInterpolationModeCommand => "G01"
    case CWCircularInterpolationModeCommand => "G02"
    case CCWCircularInterpolationModeCommand => "G03"
    case SingleQuadrantCommand => "G74"
    case MultiQuadrantCommand => "G75"
    case EnableRegionModeCommand => "G36"
    case DisableRegionModeCommand => "G37"
    case CommentCommand => "G04"
    case EOFCommand => "M02"
  }

  /** The deprecated classes are those of the codes OF and IP. */
  lemma DeprecatedCodes(cls: CommandClass)
    ensures Deprecated(cls) <==> CodeOf(cls) == "OF" || CodeOf(cls) == "IP"
  {
  }

  /** Both tables are injective and map to disjoint sets of classes. */
  lemma TablesDistinct()
    ensures forall a, b :: a in ExtendedCommands && b in ExtendedCommands && a != b ==>
      ExtendedCommands[a] != ExtendedCommands[b]
    ensures forall a, b :: a in NormalCommands && b in NormalCommands && a != b ==>
      NormalCommands[a] != NormalCommands[b]
    ensures forall a, b :: a in ExtendedCommands && b in NormalCommands ==>
      ExtendedCommands[a] != NormalCommands[b]
  {
    ExtendedCodes();
    NormalCodes();
    KeyLengths();
  }

  /** Neither table maps a code to the aperture-select class. */
  lemma SetApertureUntabled()
    ensures SetApertureCommand !in ExtendedCommands.Values
    ensures SetApertureCommand !in NormalCommands.Values
  {
    ExtendedCodes();
    NormalCodes();
    KeyLengths();
    forall v | v in ExtendedCommands.Values ensures v != SetApertureCommand {
      var k :| k in ExtendedCommands && ExtendedCommands[k] == v;
    }
    forall v | v in NormalCommands.Values ensures v != SetApertureCommand {
      var k :| k in NormalCommands && NormalCommands[k] == v;
    }
  }

  /** CodeOf inverts the extended table. */
  lemma ExtendedCodes()
    ensures forall k :: k in ExtendedCommands ==> CodeOf(ExtendedCommands[k]) == k
  {
  }

  /** CodeOf inverts the normal table. */
  lemma NormalCodes()
    ensures forall k :: k in NormalCommands ==> CodeOf(NormalCommands[k]) == k
  {
  }

  /** The key sets of the two tables. */
  lemma TableKeys()
    ensures ExtendedCommands.Keys == {"MO", "FS", "OF", "IP", "LP", "AM", "AD"}
    ensures NormalCommands.Keys ==
      {"D01", "D02", "D03", "G01", "G02", "G03", "G74", "G75", "G36", "G37", "G04", "M02"}
  {
  }

  /** Extended codes have two characters, normal codes three. */
  lemma KeyLengths()
    ensures forall k :: k in ExtendedCommands ==> |k| == 2
    ensures forall k :: k in NormalCommands ==> |k| == 3
  {
  }

  /** A string starting with `%` is classified by its characters 1-2 through
      the extended table; a code outside the table raises KeyError. */
  lemma ExtendedDispatch(s: string)
    requires s != [] && s[0] == '%'
    ensures (|s| < 3 || s[1..3] !in ExtendedCommands) ==> FromString(s) == Err(KeyError(Slice(s, 1, 3)))
    ensures |s| >= 3 && s[1..3] in ExtendedCommands ==>
      FromString(s) == Instantiate(ExtendedCommands[s[1..3]], s)
    ensures FromString(s).Ok? ==> |s| >= 3 && ExtendedCommands[s[1..3]] == ClassOf(FromString(s).value)
  {
    if |s| < 3 {
      KeyLengths();
      assert |Slice(s, 1, 3)| < 2;
    }
  }

  /** A string not starting with `%` whose three characters before the last
      form a normal code is built by the class that code maps to. */
  lemma NormalDispatch(s: string)
    requires |s| >= 4 && s[0] != '%' && s[|s| - 4..|s| - 1] in NormalCommands
    ensures FromString(s).Ok?
    ensures ClassOf(FromString(s).value) == NormalCommands[s[|s| - 4..|s| - 1]]
    ensures !FromString(s).value.SetAperture?
  {
    var code := s[|s| - 4..|s| - 1];
    SetApertureUntabled();
    assert NormalCommands[code] in NormalCommands.Values;
  }

  /** Aperture select is the fallback: a string becomes a SetAperture command
      exactly when it is non-empty, does not start with `%`, and the three
      characters before its last are not a normal code. */
  lemma SetApertureFallback(s: string)
    ensures (FromString(s).Ok? && FromString(s).value.SetAperture?) <==>
      (s != [] && s[0] != '%' && (|s| < 4 || s[|s| - 4..|s| - 1] !in NormalCommands))
  {
    if s == [] {
    } else if s[0] == '%' {
      var code := Slice(s, 1, 3);
      if code in ExtendedCommands {
        SetApertureUntabled();
        assert ExtendedCommands[code] in ExtendedCommands.Values;
      }
    } else if |s| < 4 {
      KeyLengths();
      assert |Slice(s, -4, -1)| < 3;
    } else {
      var code := Slice(s, -4, -1);
      assert code == s[|s| - 4..|s| - 1];
      if code in NormalCommands {
        NormalDispatch(s);
      }
    }
  }

  /** A Unit command carries characters 3-4 of its text as its units. */
  lemma UnitFields(s: string)
    requires FromString(s).Ok? && FromString(s).value.Unit?
    ensures StartsWith(s, "%MO")
    ensures FromString(s).value.units == Slice(s, 3, 5)
    ensures |s| >= 5 ==> FromString(s).value.units == s[3..5]
  {
    if s[0] != '%' {
      var code := Slice(s, -4, -1);
      if code in NormalCommands {
        NormalCodes();
        assert CodeOf(NormalCommands[code]) == code;
        KeyLengths();
      }
      assert false;
    }
    ExtendedDispatch(s);
    ExtendedCodes();
    assert CodeOf(ExtendedCommands[s[1..3]]) == s[1..3];
    assert s[..3] == [s[0]] + s[1..3];
  }

  /** A string starting with `%FS` is accepted exactly when it starts with
      `%FSLAX` and characters 6-7 equal characters 9-10; the format is then
      characters 6-7, otherwise construction fails with an assertion error. */
  lemma CoordinateFormatDispatch(s: string)
    requires StartsWith(s, "%FS")
    ensures FromString(s).Ok? <==> StartsWith(s, "%FSLAX") && Slice(s, 6, 8) == Slice(s, 9, 11)
    ensures FromString(s).Ok? ==> FromString(s) == Ok(CoordinateFormat(s, Slice(s, 6, 8)))
    ensures FromString(s).Err? ==> FromString(s) == Err(AssertionError)
  {
    assert s[1..3] == "FS" by { assert s[1..3] == s[..3][1..3]; }
    ExtendedDispatch(s);
  }

  /** Exactly the commands dispatched through the OF and IP codes are
      deprecated. */
  lemma DeprecatedDispatch(s: string)
    requires FromString(s).Ok?
    ensures Deprecated(ClassOf(FromString(s).value)) <==>
      s[0] == '%' && |s| >= 3 && (s[1..3] == "OF" || s[1..3] == "IP")
  {
    var cls := ClassOf(FromString(s).value);
    DeprecatedCodes(cls);
    if s[0] == '%' {
      ExtendedDispatch(s);
      ExtendedCodes();
      assert CodeOf(cls) == s[1..3];
    } else {
      var code := Slice(s, -4, -1);
      if code in NormalCommands {
        NormalCodes();
        KeyLengths();
        assert cls == NormalCommands[code];
        assert |CodeOf(cls)| == 3;
      } else {
        assert cls == SetApertureCommand;
      }
    }
  }

  /** The unit command of a millimetre file carries `MM`. */
  lemma ExampleUnit()
    ensures FromString("%MOMM*%") == Ok(Unit("%MOMM*%", "MM"))
  {
    assert Slice("%MOMM*%", 1, 3) == "MO" && Slice("%MOMM*%", 3, 5) == "MM";
  }

  /** A 2.4 format is accepted; differing X and Y formats are not. */
  lemma ExampleFormat()
    ensures FromString("%FSLAX24Y24*%") == Ok(CoordinateFormat("%FSLAX24Y24*%", "24"))
    ensures FromString("%FSLAX24Y25*%") == Err(AssertionError)
  {
    CoordinateFormatDispatch("%FSLAX24Y24*%");
    CoordinateFormatDispatch("%FSLAX24Y25*%");
    assert Slice("%FSLAX24Y24*%", 6, 8) == "24" == Slice("%FSLAX24Y24*%", 9, 11);
    var bad := "%FSLAX24Y25*%";
    assert Slice(bad, 9, 11) == bad[9..11] && bad[10] == '5' && Slice(bad, 6, 8)[1] == '4';
  }

  /** An unknown extended code raises KeyError with that code. */
  lemma ExampleUnknown()
    ensures FromString("%XY*%") == Err(KeyError("XY"))
  {
    assert Slice("%XY*%", 1, 3) == "XY";
  }

  /** A move of a minimal file. */
  lemma ExampleMove()
    ensures FromString("X0Y0D02*") == Ok(Move("X0Y0D02*"))
  {
    assert Slice("X0Y0D02*", -4, -1) == "D02";
  }

  /** An aperture select and the end of a file. */
  lemma ExampleSelectAndEnd()
    ensures FromString("D10*") == Ok(SetAperture("D10*"))
    ensures FromString("M02*") == Ok(EndOfFile("M02*"))
  {
    assert Slice("D10*", -4, -1) == "D10";
    assert Slice("M02*", -4, -1) == "M02";
  }
}
