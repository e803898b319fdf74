/** The simulation settings record and its key-value settings file parser. A settings
    file is given as its lines, each already split into whitespace-separated tokens;
    `None` stands for a file that could not be opened. */
module Settings {
  import opened Wrappers

  /** One whitespace-separated token of a settings line: its text, and the values a
      stream extraction of it into a `float`, an `int` and a `bool` stores (the
      number parsing itself is outside this model). */
  datatype Token = Token(text: string, asFloat: real, asInt: int, asBool: bool)

  /** The values of the seventeen settings fields. */
  datatype Values = Values(
    elevationDEMFile: string, terrainColorFile: string, startingZoneFile: string,
    flowPathOutputFile: string, pathFile: string, pathDistanceMap: string,
    initialHeight: real, bounceFriction: real, stickyness: real, dampingForce: real,
    turbulanceForce: real, clumpingFactor: real, viscosity: real,
    disableView: bool, verboseOutput: bool, gridSize: int, maxIterations: int)

  /** The value of one field, tagged with the field's type. */
  datatype FieldValue = Text(s: string) | Float(r: real) | Flag(b: bool) | Whole(i: int)

  /** The seventeen fields, by name. */
  datatype Key =
    | ElevationDEMFile
    | TerrainColorFile
    | StartingZoneFile
    | FlowPathOutputFile
    | PathFile
    | PathDistanceMap
    | InitialHeight
    | BounceFriction
    | Stickyness
    | DampingForce
    | TurbulanceForce
    | ClumpingFactor
    | Viscosity
    | GridSize
    | MaxIterations
    | VerboseOutput
    | DisableView

  /** The name of each field. */
  function Name(k: Key): string {
    match k
    case ElevationDEMFile => "elevationDEMFile"
    case TerrainColorFile => "terrainColorFile"
    case StartingZoneFile => "startingZoneFile"
    case FlowPathOutputFile => "flowPathOutputFile"
    case PathFile => "pathFile"
    case PathDistanceMap => "pathDistanceMap"
    case InitialHeight => "initialHeight"
    case BounceFriction => "bounceFriction"
    case Stickyness => "stickyness"
    case DampingForce => "dampingForce"
    case TurbulanceForce => "turbulanceForce"
    case ClumpingFactor => "clumpingFactor"
    case Viscosity => "viscosity"
    case GridSize => "gridSize"
    case MaxIterations => "maxIterations"
    case VerboseOutput => "verboseOutput"
    case DisableView => "disableView"
  }

  /** The keys the if-chain of `parseSettings` tests, in its order: every field but
      `disableView`. */
  const Recognised: seq<Key> := [
    ElevationDEMFile, TerrainColorFile, StartingZoneFile, FlowPathOutputFile,
    PathFile, PathDistanceMap, InitialHeight, BounceFriction,
    Stickyness, DampingForce, TurbulanceForce, ClumpingFactor,
    Viscosity, GridSize, MaxIterations, VerboseOutput]

  /** The if-chain of `parseSettings` from its `i`-th test on: the first recognised
      key whose name is `param`. */
  function Lookup(param: string, i: nat): Option<Key>
    decreases |Recognised| - i
  {
    if |Recognised| <= i then None
    else if param == Name(Recognised[i]) then Some(Recognised[i])
    else Lookup(param, i + 1)
  }

  /** The field a parameter names, if it is one of the recognised keys. */
  function KeyOf(param: string): Option<Key> {
    Lookup(param, 0)
  }

  /** The value of field `k`. */
  function Get(v: Values, k: Key): FieldValue {
    match k
    case ElevationDEMFile => Text(v.elevationDEMFile)
    case TerrainColorFile => Text(v.terrainColorFile)
    case StartingZoneFile => Text(v.startingZoneFile)
    case FlowPathOutputFile => Text(v.flowPathOutputFile)
    case PathFile => Text(v.pathFile)
    case PathDistanceMap => Text(v.pathDistanceMap)
    case InitialHeight => Float(v.initialHeight)
    case BounceFriction => Float(v.bounceFriction)
    case Stickyness => Float(v.stickyness)
    case DampingForce => Float(v.dampingForce)
    case TurbulanceForce => Float(v.turbulanceForce)
    case ClumpingFactor => Float(v.clumpingFactor)
    case Viscosity => Float(v.viscosity)
    case GridSize => Whole(v.gridSize)
    case MaxIterations => Whole(v.maxIterations)
    case VerboseOutput => Flag(v.verboseOutput)
    case DisableView => Flag(v.disableView)
  }

  /** What extracting token `t` into field `k` stores there. */
  function Extracted(k: Key, t: Token): FieldValue {
    match k
    case ElevationDEMFile => Text(t.text)
    case TerrainColorFile => Text(t.text)
    case StartingZoneFile => Text(t.text)
    case FlowPathOutputFile => Text(t.text)
    case PathFile => Text(t.text)
    case PathDistanceMap => Text(t.text)
    case InitialHeight => Float(t.asFloat)
    case BounceFriction => Float(t.asFloat)
    case Stickyness => Float(t.asFloat)
    case DampingForce => Float(t.asFloat)
    case TurbulanceForce => Float(t.asFloat)
    case ClumpingFactor => Float(t.asFloat)
    case Viscosity => Float(t.asFloat)
    case GridSize => Whole(t.asInt)
    case MaxIterations => Whole(t.asInt)
    case VerboseOutput => Flag(t.asBool)
    case DisableView => Flag(t.asBool)
  }

  /** The branch of the if-chain for field `k`: extract `t` into it. */
  function Assign(v: Values, k: Key, t: Token): Values {
    match k
    case ElevationDEMFile => v.(elevationDEMFile := t.text)
    case TerrainColorFile => v.(terrainColorFile := t.text)
    case StartingZoneFile => v.(startingZoneFile := t.text)
    case FlowPathOutputFile => v.(flowPathOutputFile := t.text)
    case PathFile => v.(pathFile := t.text)
    case PathDistanceMap => v.(pathDistanceMap := t.text)
    case InitialHeight => v.(initialHeight := t.asFloat)
    case BounceFriction => v.(bounceFriction := t.asFloat)
    case Stickyness => v.(stickyness := t.asFloat)
    case DampingForce => v.(dampingForce := t.asFloat)
    case TurbulanceForce => v.(turbulanceForce := t.asFloat)
    case ClumpingFactor => v.(clumpingFactor := t.asFloat)
    case Viscosity => v.(viscosity := t.asFloat)
    case GridSize => v.(gridSize := t.asInt)
    case MaxIterations => v.(maxIterations := t.asInt)
    case VerboseOutput => v.(verboseOutput := t.asBool)
    case DisableView => v.(disableView := t.asBool)
  }

  /** A line is skipped when it has no parameter token or its parameter starts with '#'. */
  predicate Skipped(line: seq<Token>) {
    |line| == 0 || |line[0].text| == 0 || line[0].text[0] == '#'
  }

  /** One line of the settings file. A skipped line changes nothing, nor does an
      unrecognised parameter, nor a parameter with no value token after it (the
      extraction finds no token and stores nothing). */
  function ApplyLine(v: Values, line: seq<Token>): Values {
    if Skipped(line) || |line| < 2 then v
    else match KeyOf(line[0].text) {
      case None => v
      case Some(k) => Assign(v, k, line[1])
    }
  }

  /** The first `n` lines, in order. */
  function ApplyLines(v: Values, lines: seq<seq<Token>>, n: nat): Values
    requires n <= |lines|
  {
    if n == 0 then v else ApplyLine(ApplyLines(v, lines, n - 1), lines[n - 1])
  }

  /** The value the last of the first `n` lines that sets field `k` gives it, if any does. */
  function LastSetting(lines: seq<seq<Token>>, n: nat, k: Key): Option<FieldValue>
    requires n <= |lines|
  {
    if n == 0 then None
    else
      var line := lines[n - 1];
      if !Skipped(line) && 2 <= |line| && KeyOf(line[0].text) == Some(k) then Some(Extracted(k, line[1]))
      else LastSetting(lines, n - 1, k)
  }

  /** Different fields have different names (no two agree in both length and first letter). */
  lemma NamesDistinct(a: Key, b: Key)
    requires a != b
    ensures Name(a) != Name(b)
  {
    if |Name(a)| == |Name(b)| {
      assert Name(a)[0] != Name(b)[0];
    }
  }

  lemma {:induction false} LookupNamed(param: string, i: nat, k: Key)
    requires Lookup(param, i) == Some(k)
    ensures param == Name(k) && k in Recognised
    decreases |Recognised| - i
  {
    if i < |Recognised| && param != Name(Recognised[i]) {
      LookupNamed(param, i + 1, k);
    }
  }

  lemma {:induction false} LookupFinds(k: Key, i: nat, j: nat)
    requires i <= j < |Recognised| && Recognised[j] == k
    ensures Lookup(Name(k), i) == Some(k)
    decreases j - i
  {
    if i == j {
      assert Name(k) == Name(Recognised[i]);
    } else {
      NamesDistinct(Recognised[i], k);
      LookupFinds(k, i + 1, j);
    }
  }

  /** A recognised parameter is the name of the field it selects, and that field is
      never `disableView`. */
  lemma KeyOfNamed(param: string, k: Key)
    requires KeyOf(param) == Some(k)
    ensures param == Name(k) && k != DisableView
  {
    LookupNamed(param, 0, k);
  }

  /** The name of every field but `disableView` is recognised as that field. */
  lemma NameRecognised(k: Key)
    requires k != DisableView
    ensures KeyOf(Name(k)) == Some(k)
  {
    assert k in Recognised;
    var j :| 0 <= j < |Recognised| && Recognised[j] == k;
    LookupFinds(k, 0, j);
  }

  /** Blank lines and comment lines change nothing. */
  lemma SkippedLineUnchanged(v: Values, line: seq<Token>)
    requires Skipped(line)
    ensures ApplyLine(v, line) == v
  {
  }

  /** A line whose parameter is not a recognised key changes nothing. */
  lemma UnknownKeyUnchanged(v: Values, line: seq<Token>)
    requires 0 < |line| && KeyOf(line[0].text) == None
    ensures ApplyLine(v, line) == v
  {
  }

  /** Extracting into field `k` gives `k` the extracted value and leaves every other
      field as it was. */
  lemma AssignSetsOnlyItsField(v: Values, k: Key, t: Token, other: Key)
    ensures Get(Assign(v, k, t), k) == Extracted(k, t)
    ensures other != k ==> Get(Assign(v, k, t), other) == Get(v, other)
  {
  }

  /** A line leaves field `k` alone unless it sets it, and then gives it the value
      extracted from the token after the key. */
  lemma ApplyLineGet(v: Values, line: seq<Token>, k: Key)
    ensures Get(ApplyLine(v, line), k) ==
      if !Skipped(line) && 2 <= |line| && KeyOf(line[0].text) == Some(k) then Extracted(k, line[1]) else Get(v, k)
  {
    if !Skipped(line) && 2 <= |line| && KeyOf(line[0].text).Some? {
      AssignSetsOnlyItsField(v, KeyOf(line[0].text).value, line[1], k);
    }
  }

  /** Every field ends up with the value of the last line that sets it, or keeps its
      value when no line does: the last occurrence of a key wins. */
  lemma {:induction false} LastOccurrenceWins(v: Values, lines: seq<seq<Token>>, n: nat, k: Key)
    requires n <= |lines|
    ensures Get(ApplyLines(v, lines, n), k) == match LastSetting(lines, n, k) {
      case Some(x) => x
      case None => Get(v, k)
    }
  {
    if n > 0 {
      LastOccurrenceWins(v, lines, n - 1, k);
      ApplyLineGet(ApplyLines(v, lines, n - 1), lines[n - 1], k);
    }
  }

  /** No settings file ever changes `disableView`. */
  lemma DisableViewNeverParsed(v: Values, lines: seq<seq<Token>>)
    ensures ApplyLines(v, lines, |lines|).disableView == v.disableView
  {
    NoSettingOfDisableView(lines, |lines|);
    LastOccurrenceWins(v, lines, |lines|, DisableView);
  }

  lemma {:induction false} NoSettingOfDisableView(lines: seq<seq<Token>>, n: nat)
    requires n <= |lines|
    ensures LastSetting(lines, n, DisableView) == None
  {
    if n > 0 {
      NoSettingOfDisableView(lines, n - 1);
      if 0 < |lines[n - 1]| {
        if KeyOf(lines[n - 1][0].text).Some? {
          KeyOfNamed(lines[n - 1][0].text, KeyOf(lines[n - 1][0].text).value);
        }
      }
    }
  }

  /** The values the constructor gives, with `clumpingFactor`, which it never assigns,
      taken from `clumping`. `pathFile` and `pathDistanceMap` are empty strings. */
  function Defaults(clumping: real): Values {
    Values("dem.txt", "terrain.bmp", "startzone.bmp", "flowpath.bmp", "", "",
           100.0, 0.05, 0.5, 0.02, 0.2, clumping, 0.25,
           false, true, 128, 20000)
  }

  /** `SimulationSettings`. */
  class SimulationSettings {
    var elevationDEMFile: string
    var terrainColorFile: string
    var startingZoneFile: string
    var flowPathOutputFile: string
    var pathFile: string
    var pathDistanceMap: string
    var initialHeight: real
    var bounceFriction: real
    var stickyness: real
    var dampingForce: real
    var turbulanceForce: real
    var clumpingFactor: real
    var viscosity: real
    var disableView: bool
    var verboseOutput: bool
    var gridSize: int
    var maxIterations: int

    function Fields(): Values
      reads this
    {
      Values(elevationDEMFile, terrainColorFile, startingZoneFile, flowPathOutputFile,
             pathFile, pathDistanceMap, initialHeight, bounceFriction, stickyness,
             dampingForce, turbulanceForce, clumpingFactor, viscosity,
             disableView, verboseOutput, gridSize, maxIterations)
    }

    /** The constructor: every field but `clumpingFactor` takes its default; that one
        is left with whatever value it has. */
    constructor ()
      ensures Fields() == Defaults(clumpingFactor)
    {
      elevationDEMFile := "dem.txt";
      terrainColorFile := "terrain.bmp";
      startingZoneFile := "startzone.bmp";
      flowPathOutputFile := "flowpath.bmp";
      pathFile, pathDistanceMap := "", "";
      initialHeight := 100.0;
      bounceFriction := 0.05;
      stickyness := 0.5;
      dampingForce := 0.02;
      turbulanceForce := 0.2;
      viscosity := 0.25;
      gridSize := 128;
      disableView := false;
      verboseOutput := true;
      maxIterations := 20000;
    }

    /** Stores `v` into the fields. */
    method Store(v: Values)
      modifies this
      ensures Fields() == v
    {
      StoreFilesAndForces(v);
      StoreRest(v);
    }

    /** The file names and the first three forces. */
    method StoreFilesAndForces(v: Values)
      modifies this`elevationDEMFile, this`terrainColorFile, this`startingZoneFile, this`flowPathOutputFile, this`pathFile, this`pathDistanceMap, this`initialHeight, this`bounceFriction, this`stickyness
      ensures elevationDEMFile == v.elevationDEMFile
      ensures terrainColorFile == v.terrainColorFile
      ensures startingZoneFile == v.startingZoneFile
      ensures flowPathOutputFile == v.flowPathOutputFile
      ensures pathFile == v.pathFile
      ensures pathDistanceMap == v.pathDistanceMap
      ensures initialHeight == v.initialHeight
      ensures bounceFriction == v.bounceFriction
      ensures stickyness == v.stickyness
    {
      elevationDEMFile, terrainColorFile, startingZoneFile := v.elevationDEMFile, v.terrainColorFile, v.startingZoneFile;
      flowPathOutputFile, pathFile, pathDistanceMap := v.flowPathOutputFile, v.pathFile, v.pathDistanceMap;
      initialHeight, bounceFriction, stickyness := v.initialHeight, v.bounceFriction, v.stickyness;
    }

    /** The remaining fields. */
    method StoreRest(v: Values)
      modifies this`dampingForce, this`turbulanceForce, this`clumpingFactor, this`viscosity, this`disableView, this`verboseOutput, this`gridSize, this`maxIterations
      ensures dampingForce == v.dampingForce
      ensures turbulanceForce == v.turbulanceForce
      ensures clumpingFactor == v.clumpingFactor
      ensures viscosity == v.viscosity
      ensures disableView == v.disableView
      ensures verboseOutput == v.verboseOutput
      ensures gridSize == v.gridSize
      ensures maxIterations == v.maxIterations
    {
      dampingForce, turbulanceForce, clumpingFactor := v.dampingForce, v.turbulanceForce, v.clumpingFactor;
      viscosity, disableView, verboseOutput := v.viscosity, v.disableView, v.verboseOutput;
      gridSize, maxIterations := v.gridSize, v.maxIterations;
    }

    /** `parseSettings(settingsFile)`: a file that cannot be opened changes nothing;
        otherwise every line is applied in order. The lines update a copy of the
        fields, which is stored back at the end. */
    method ParseSettings(file: Option<seq<seq<Token>>>)
      modifies this
      ensures file.None? ==> Fields() == old(Fields())
      ensures file.Some? ==> Fields() == ApplyLines(old(Fields()), file.value, |file.value|)
    {
      if file.None? {
        return;
      }
      var lines := file.value;
      var v := Fields();
      var k := 0;
      while k < |lines|
        invariant 0 <= k <= |lines|
        invariant v == ApplyLines(old(Fields()), lines, k)
      {
        var line := lines[k];
        k := k + 1;
        if |line| == 0 || |line[0].text| == 0 {
          continue;
        }
        var param := line[0].text;
        if param[0] == '#' {
          continue;
        }
        var key := KeyOf(param);
        if key.Some? && 2 <= |line| {
          v := Assign(v, key.value, line[1]);
        }
      }
      Store(v);
    }
  }
}
