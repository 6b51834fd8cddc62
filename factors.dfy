/** The experimental design of the instance generator: the factor table that
    maps each of the seven positions of a scenario code to its low and high
    level, the validation of a code, and its decoding into a configuration.
    Also the shape of an instance as it is persisted. */
module Factors {
  import opened Util

  /** Base mean of the setup times (and of the low processing mean). */
  const SetupBaseMean: real := 450.0

  datatype Level = Low | High
  datatype Structure = Symmetric | Asymmetric

  // The factor table, one two-entry column per code position: index 0 is
  // the level selected by 'L', index 1 the level selected by 'H'.
  const ReadyTimeLevels: seq<Level> := [Low, High]
  const ProcessingVariabilityLevels: seq<Level> := [Low, High]
  const ProcessingMeanLevels: seq<Level> := [Low, High]
  const SetupStructureLevels: seq<Structure> := [Symmetric, Asymmetric]
  const SetupVariabilityLevels: seq<Level> := [Low, High]
  const MachineLevels: seq<nat> := [2, 10]
  const JobsPerMachineLevels: seq<nat> := [3, 10]

  /** The error raised for a malformed scenario code. */
  datatype CodeError = InvalidScenarioCode

  /** The decoded configuration of a scenario (and the `configuracao`
      record of the persisted form). */
  datatype Config = Config(
    code: string,
    readyTimeLevel: Level,
    processingVariability: Level,
    processingMean: Level,
    setupStructure: Structure,
    setupVariability: Level,
    machines: nat,
    jobsPerMachine: nat,
    jobs: nat)

  /** Upper-casing, on the only letters a valid code may hold. */
  function UpperLetter(c: char): char {
    if c == 'l' then 'L' else if c == 'h' then 'H' else c
  }

  /** A code as it is stored after validation: seven upper-case letters. */
  ghost predicate IsStoredCode(code: string) {
    |code| == 7 && forall k :: 0 <= k < 7 ==> code[k] == 'L' || code[k] == 'H'
  }

  /** Validation of the constructor: exactly seven letters, each one of
      L, H, l, h; the accepted code is stored upper-cased. */
  function CheckCode(code: string): (r: Result<string, CodeError>)
    ensures r.Success? <==> |code| == 7 && forall k :: 0 <= k < |code| ==> code[k] in "LHlh"
    ensures r.Success? ==> IsStoredCode(r.value)
    ensures r.Success? ==> forall k :: 0 <= k < 7 ==>
      (r.value[k] == 'L' <==> code[k] in "Ll") && (r.value[k] == 'H' <==> code[k] in "Hh")
  {
    if |code| != 7 || exists k :: 0 <= k < |code| && code[k] !in "LHlh" then
      Failure(InvalidScenarioCode)
    else
      Success(seq(|code|, k requires 0 <= k < |code| => UpperLetter(code[k])))
  }

  /** The column index a stored letter selects: 'L' the first, anything
      else the second. */
  function LetterIndex(c: char): (k: nat)
    ensures k < 2
  {
    if c == 'L' then 0 else 1
  }

  /** Decoding of a stored code, position by position, into the factor
      table; the job count is machines times jobs per machine. */
  function Decode(code: string): Config
    requires |code| == 7
  {
    var machines := MachineLevels[LetterIndex(code[5])];
    var jobsPerMachine := JobsPerMachineLevels[LetterIndex(code[6])];
    Config(
      code,
      ReadyTimeLevels[LetterIndex(code[0])],
      ProcessingVariabilityLevels[LetterIndex(code[1])],
      ProcessingMeanLevels[LetterIndex(code[2])],
      SetupStructureLevels[LetterIndex(code[3])],
      SetupVariabilityLevels[LetterIndex(code[4])],
      machines,
      jobsPerMachine,
      machines * jobsPerMachine)
  }

  /** A configuration that decoding produced. */
  ghost predicate IsDecoded(c: Config) {
    IsStoredCode(c.code) && c == Decode(c.code)
  }

  function LevelLetter(l: Level): char {
    if l == Low then 'L' else 'H'
  }

  /** The letters a configuration was decoded from, read back from its
      levels alone (the code field itself is not consulted). */
  function Letters(c: Config): string {
    [ LevelLetter(c.readyTimeLevel),
      LevelLetter(c.processingVariability),
      LevelLetter(c.processingMean),
      if c.setupStructure == Symmetric then 'L' else 'H',
      LevelLetter(c.setupVariability),
      if c.machines == 2 then 'L' else 'H',
      if c.jobsPerMachine == 3 then 'L' else 'H' ]
  }

  /** Decoding loses nothing: the levels alone give the code back, so two
      distinct stored codes never decode to the same levels. */
  lemma DecodeRoundTrip(code: string)
    requires IsStoredCode(code)
    ensures Letters(Decode(code)) == code
  {
    var d := Decode(code);
    forall k | 0 <= k < 7 ensures Letters(d)[k] == code[k] {
      assert code[k] == 'L' || code[k] == 'H';
    }
  }

  /** The derived job count and its four possible values; the average load
      is always more than one job per machine. */
  lemma DecodedSizes(code: string)
    requires IsStoredCode(code)
    ensures var c := Decode(code);
      && c.machines in {2, 10}
      && c.jobsPerMachine in {3, 10}
      && c.jobs == c.machines * c.jobsPerMachine
      && c.jobs in {6, 20, 30, 100}
      && (c.jobs as real) / (c.machines as real) > 1.0
  {
    var c := Decode(code);
    assert c.jobs as real == (c.machines as real) * (c.jobsPerMachine as real);
  }

  /** The persisted form of an instance: the configuration, the setup matrix
      with `null` where the generator put infinity, and the processing and
      ready times, position i holding job i + 1. */
  datatype StoredInstance = StoredInstance(
    config: Config,
    setupMatrix: seq<seq<Option<real>>>,
    processingTimes: seq<real>,
    readyTimes: seq<real>)
}
