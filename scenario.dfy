/** The scenario generator (class Cenario): a validated seven-letter code,
    its decoded configuration, and the random data it generates on demand,
    the setup matrix, the processing times and the ready times, together
    with their persisted form.

    Randomness is modelled as one stream of unit draws u in [0, 1] supplied
    by the caller, consumed in the order the generator draws: a uniform draw
    on [lo, hi] is lo + (hi - lo) * u. The setup matrix takes the first draws
    of the stream, the processing times the next nJobs, the ready times the
    nJobs after those. */
module Scenarios {
  import opened Util
  import opened Factors
  import opened Loader

  /** A setup matrix cell: a time, or the infinity on the diagonal. */
  datatype Cell = Finite(value: real) | Infinite

  /** A uniform draw on [lo, hi] from the unit draw u. */
  function Uniform(lo: real, hi: real, u: real): real {
    lo + (hi - lo) * u
  }

  ghost predicate UnitDraws(draws: seq<real>) {
    forall k :: 0 <= k < |draws| ==> 0.0 <= draws[k] <= 1.0
  }

  /** A uniform draw lies between its bounds. */
  lemma UniformBetween(lo: real, hi: real, u: real)
    requires lo <= hi && 0.0 <= u <= 1.0
    ensures lo <= Uniform(lo, hi, u) <= hi
  {
    var w := hi - lo;
    assert w * u >= 0.0;
    assert w * (1.0 - u) >= 0.0;
    assert w * u + w * (1.0 - u) == w;
  }

  // The setup matrix.

  /** Standard deviation of the setup times: 1.5 times the base mean over 9
      when the variability is high, half of that when it is low. */
  function SetupSigma(variability: Level): real {
    if variability == High then (1.5 * SetupBaseMean) / 9.0 else 0.5 * ((1.5 * SetupBaseMean) / 9.0)
  }

  /** The bounds of a setup time: the base mean plus or minus the square
      root of 3 (given as `root3`) times the standard deviation. */
  function SetupLow(variability: Level, root3: real): real {
    SetupBaseMean - root3 * SetupSigma(variability)
  }

  function SetupHigh(variability: Level, root3: real): real {
    SetupBaseMean + root3 * SetupSigma(variability)
  }

  /** With the square root of 3 between 1.73 and 1.74 every setup time lies
      in [319.5, 580.5], so it is positive, and the interval is centred on
      the base mean 450 and wider when the variability is high. */
  lemma SetupBounds(variability: Level, root3: real)
    requires 1.73 <= root3 <= 1.74
    ensures 319.5 <= SetupLow(variability, root3) < SetupBaseMean < SetupHigh(variability, root3) <= 580.5
    ensures SetupLow(variability, root3) + SetupHigh(variability, root3) == 2.0 * SetupBaseMean
    ensures SetupHigh(High, root3) - SetupLow(High, root3) == 2.0 * (SetupHigh(Low, root3) - SetupLow(Low, root3))
  {
  }

  /** How many draws row r of an n-job matrix takes: one per other job when
      the matrix is asymmetric, one per later job when it is symmetric (the
      upper triangle, mirrored below the diagonal). */
  function RowLength(n: nat, structure: Structure, r: nat): nat
    requires r < n
  {
    if structure == Asymmetric then n - 1 else n - 1 - r
  }

  /** The draws taken by the rows before row i. */
  function RowStart(n: nat, structure: Structure, i: nat): nat
    requires i <= n
  {
    if i == 0 then 0 else RowStart(n, structure, i - 1) + RowLength(n, structure, i - 1)
  }

  /** The draws the whole matrix takes. */
  function DrawCount(n: nat, structure: Structure): nat {
    RowStart(n, structure, n)
  }

  /** The draws row i has taken before its column j. */
  function Used(structure: Structure, i: nat, j: nat): nat {
    if structure == Asymmetric then (if i < j then j - 1 else j)
    else if j > i + 1 then j - i - 1 else 0
  }

  lemma {:induction false} RowStartMonotone(n: nat, structure: Structure, i: nat, k: nat)
    requires i <= k <= n
    ensures RowStart(n, structure, i) <= RowStart(n, structure, k)
    decreases k - i
  {
    if i < k {
      RowStartMonotone(n, structure, i + 1, k);
    }
  }

  /** The position in the stream of the draw that fills cell (a, b): a
      symmetric matrix fills both (a, b) and (b, a) from the draw of the
      upper-triangle cell. */
  function DrawIndex(n: nat, structure: Structure, a: nat, b: nat): (r: nat)
    requires a < n && b < n && a != b
    ensures r < DrawCount(n, structure)
  {
    var swap := structure == Symmetric && b < a;
    var row, col := if swap then b else a, if swap then a else b;
    RowStartMonotone(n, structure, row + 1, n);
    RowStart(n, structure, row) + Used(structure, row, col)
  }

  /** The matrix the generator produces from the draws: infinity on the
      diagonal, a uniform draw everywhere else. */
  function Entry(n: nat, structure: Structure, lo: real, hi: real, draws: seq<real>, a: nat, b: nat): Cell
    requires a < n && b < n && |draws| >= DrawCount(n, structure)
  {
    if a == b then Infinite else Finite(Uniform(lo, hi, draws[DrawIndex(n, structure, a, b)]))
  }

  /** Asymmetric matrices take n (n - 1) draws, symmetric ones half that. */
  lemma {:induction false} RowStartValue(n: nat, structure: Structure, i: nat)
    requires i <= n
    ensures structure == Asymmetric ==> RowStart(n, structure, i) == i * (n - 1)
    ensures structure == Symmetric ==> 2 * RowStart(n, structure, i) == i * (2 * n - i - 1)
  {
    if i > 0 {
      RowStartValue(n, structure, i - 1);
      assert i * (n - 1) == (i - 1) * (n - 1) + (n - 1);
      assert i * (2 * n - i - 1) == (i - 1) * (2 * n - (i - 1) - 1) + 2 * (n - i);
    }
  }

  lemma DrawCountValue(n: nat, structure: Structure)
    ensures structure == Asymmetric ==> DrawCount(n, structure) == n * (n - 1)
    ensures structure == Symmetric ==> 2 * DrawCount(n, structure) == n * (n - 1)
  {
    RowStartValue(n, structure, n);
  }

  /** The draw of a cell lies in its row's share of the stream. */
  lemma DrawIndexInRow(n: nat, structure: Structure, a: nat, b: nat)
    requires a < n && b < n && a != b
    ensures var row := if structure == Symmetric && b < a then b else a;
      RowStart(n, structure, row) <= DrawIndex(n, structure, a, b) < RowStart(n, structure, row + 1)
  {
  }

  /** No draw is used twice: distinct cells take distinct draws, except the
      two mirror cells of a symmetric matrix, which share theirs. */
  lemma DrawIndexInjective(n: nat, structure: Structure, a: nat, b: nat, c: nat, d: nat)
    requires a < n && b < n && a != b && c < n && d < n && c != d
    requires DrawIndex(n, structure, a, b) == DrawIndex(n, structure, c, d)
    ensures structure == Asymmetric ==> a == c && b == d
    ensures structure == Symmetric ==> (a == c && b == d) || (a == d && b == c)
  {
    var r1 := if structure == Symmetric && b < a then b else a;
    var r2 := if structure == Symmetric && d < c then d else c;
    DrawIndexInRow(n, structure, a, b);
    DrawIndexInRow(n, structure, c, d);
    if r1 < r2 {
      RowStartMonotone(n, structure, r1 + 1, r2);
    } else if r2 < r1 {
      RowStartMonotone(n, structure, r2 + 1, r1);
    }
  }

  /** The generated matrix is infinite exactly on the diagonal, every other
      cell lies between the setup bounds, and a symmetric matrix equals its
      transpose. */
  lemma EntryProperties(n: nat, structure: Structure, lo: real, hi: real, draws: seq<real>, a: nat, b: nat)
    requires a < n && b < n && |draws| >= DrawCount(n, structure)
    requires UnitDraws(draws) && lo <= hi
    ensures Entry(n, structure, lo, hi, draws, a, b).Infinite? <==> a == b
    ensures a != b ==> lo <= Entry(n, structure, lo, hi, draws, a, b).value <= hi
    ensures structure == Symmetric ==> Entry(n, structure, lo, hi, draws, a, b) == Entry(n, structure, lo, hi, draws, b, a)
  {
    if a != b {
      UniformBetween(lo, hi, draws[DrawIndex(n, structure, a, b)]);
    }
  }

  /** Cell (a, b) comes before the cursor (i, j) in row-major order. */
  predicate Before(a: nat, b: nat, i: nat, j: nat) {
    a < i || (a == i && b < j)
  }

  /** Cell (a, b) has been written once the cursor reaches (i, j): it was
      visited, or, in a symmetric matrix, its mirror cell was. */
  predicate Written(structure: Structure, a: nat, b: nat, i: nat, j: nat) {
    Before(a, b, i, j) || (structure == Symmetric && Before(b, a, i, j))
  }

  /** One row of the generator's double loop. */
  method FillRow(matrix: array2<Cell>, n: nat, structure: Structure, lo: real, hi: real,
                 draws: seq<real>, i: nat, next: nat) returns (after: nat)
    requires matrix.Length0 == n && matrix.Length1 == n && i < n
    requires |draws| >= DrawCount(n, structure) && next == RowStart(n, structure, i)
    requires forall a, b :: 0 <= a < n && 0 <= b < n && Written(structure, a, b, i, 0) ==>
      matrix[a, b] == Entry(n, structure, lo, hi, draws, a, b)
    modifies matrix
    ensures after == RowStart(n, structure, i + 1)
    ensures forall a, b :: 0 <= a < n && 0 <= b < n && Written(structure, a, b, i + 1, 0) ==>
      matrix[a, b] == Entry(n, structure, lo, hi, draws, a, b)
    ensures forall a, b :: 0 <= a < n && 0 <= b < n && !Written(structure, a, b, i + 1, 0) ==>
      matrix[a, b] == old(matrix[a, b])
  {
    RowStartMonotone(n, structure, i + 1, n);
    after := next;
    for j := 0 to n
      invariant after == RowStart(n, structure, i) + Used(structure, i, j)
      invariant forall a, b :: 0 <= a < n && 0 <= b < n && Written(structure, a, b, i, j) ==>
        matrix[a, b] == Entry(n, structure, lo, hi, draws, a, b)
      invariant forall a, b :: 0 <= a < n && 0 <= b < n && !Written(structure, a, b, i, j) ==>
        matrix[a, b] == old(matrix[a, b])
    {
      if i == j {
        matrix[i, j] := Infinite;
        continue;
      }
      var symmetric := structure == Symmetric;
      if symmetric && i < j {
        var time := Uniform(lo, hi, draws[after]);
        matrix[i, j], matrix[j, i] := Finite(time), Finite(time);
        after := after + 1;
      } else if !symmetric {
        matrix[i, j] := Finite(Uniform(lo, hi, draws[after]));
        after := after + 1;
      }
    }
  }

  /** The whole double loop over a fresh n x n matrix. */
  method FillSetupMatrix(n: nat, structure: Structure, lo: real, hi: real, draws: seq<real>)
    returns (matrix: array2<Cell>)
    requires |draws| >= DrawCount(n, structure)
    ensures fresh(matrix) && matrix.Length0 == n && matrix.Length1 == n
    ensures forall a, b :: 0 <= a < n && 0 <= b < n ==> matrix[a, b] == Entry(n, structure, lo, hi, draws, a, b)
  {
    matrix := new Cell[n, n]((_, _) => Finite(0.0));
    var next := 0;
    for i := 0 to n
      invariant next == RowStart(n, structure, i)
      invariant forall a, b :: 0 <= a < n && 0 <= b < n && Written(structure, a, b, i, 0) ==>
        matrix[a, b] == Entry(n, structure, lo, hi, draws, a, b)
    {
      next := FillRow(matrix, n, structure, lo, hi, draws, i, next);
    }
  }

  // Processing and ready times.

  /** Mean processing time: the base mean when low, ten times it when high. */
  function ProcessingMean(c: Config): real {
    if c.processingMean == Low then SetupBaseMean else 10.0 * SetupBaseMean
  }

  /** Bounds of a processing time: 6% around the mean when the variability
      is low, 60% when it is high. */
  function ProcessingLow(c: Config): real {
    if c.processingVariability == Low then 0.94 * ProcessingMean(c) else 0.4 * ProcessingMean(c)
  }

  function ProcessingHigh(c: Config): real {
    if c.processingVariability == Low then 1.06 * ProcessingMean(c) else 1.6 * ProcessingMean(c)
  }

  /** One uniform processing time per job, from the first nJobs draws. */
  function ProcessingTimes(c: Config, draws: seq<real>): (r: seq<real>)
    requires |draws| >= c.jobs
    ensures |r| == c.jobs
  {
    seq(c.jobs, k requires 0 <= k < c.jobs => Uniform(ProcessingLow(c), ProcessingHigh(c), draws[k]))
  }

  /** Every processing time lies within its bounds, which are positive and
      centred on the mean. */
  lemma ProcessingTimesInRange(c: Config, draws: seq<real>)
    requires |draws| >= c.jobs && UnitDraws(draws)
    ensures 0.0 < ProcessingLow(c) < ProcessingMean(c) < ProcessingHigh(c)
    ensures ProcessingLow(c) + ProcessingHigh(c) == 2.0 * ProcessingMean(c)
    ensures forall k :: 0 <= k < c.jobs ==>
      ProcessingLow(c) <= ProcessingTimes(c, draws)[k] <= ProcessingHigh(c)
  {
    forall k | 0 <= k < c.jobs
      ensures ProcessingLow(c) <= ProcessingTimes(c, draws)[k] <= ProcessingHigh(c)
    {
      UniformBetween(ProcessingLow(c), ProcessingHigh(c), draws[k]);
    }
  }

  /** The smallest element of a non-empty sequence (numpy's `min`). */
  function Smallest(s: seq<real>): real
    requires |s| > 0
  {
    if |s| == 1 then s[0] else Min(Smallest(s[..|s| - 1]), s[|s| - 1])
  }

  lemma {:induction false} SmallestIsLeast(s: seq<real>)
    requires |s| > 0
    ensures forall k :: 0 <= k < |s| ==> Smallest(s) <= s[k]
    ensures exists k :: 0 <= k < |s| && Smallest(s) == s[k]
  {
    if |s| > 1 {
      var init := s[..|s| - 1];
      SmallestIsLeast(init);
      var k :| 0 <= k < |init| && Smallest(init) == init[k];
      assert init[k] == s[k];
      if Smallest(s) == s[|s| - 1] {
        assert 0 <= |s| - 1 < |s|;
      } else {
        assert Smallest(s) == s[k];
      }
    } else {
      assert Smallest(s) == s[0];
    }
  }

  /** The average number of jobs per machine, as a real quotient. */
  function JobsPerMachine(c: Config): real
    requires c.machines >= 1
  {
    (c.jobs as real) / (c.machines as real)
  }

  /** The upper end of the ready-time draws: (jobs per machine - 1) times
      the processing mean plus the base setup mean. */
  function ReadyUpper(c: Config): real
    requires c.machines >= 1
  {
    (JobsPerMachine(c) - 1.0) * (ProcessingMean(c) + SetupBaseMean)
  }

  /** Whether ready times are drawn at all: only when the ready-time level
      is high and the machines average more than one job. */
  predicate DrawsReadyTimes(c: Config)
    requires c.machines >= 1
  {
    c.readyTimeLevel == High && JobsPerMachine(c) > 1.0
  }

  /** Ready times: all zero unless they are drawn; when drawn, uniform on
      [0, ReadyUpper] and shifted down so that the earliest is 0. */
  function ReadyTimes(c: Config, draws: seq<real>): (r: seq<real>)
    requires c.machines >= 1 && |draws| >= c.jobs
    ensures |r| == c.jobs
  {
    if !DrawsReadyTimes(c) then seq(c.jobs, _ => 0.0)
    else
      var generated := seq(c.jobs, k requires 0 <= k < c.jobs => Uniform(0.0, ReadyUpper(c), draws[k]));
      if |generated| == 0 then []
      else
        var least := Smallest(generated);
        seq(c.jobs, k requires 0 <= k < c.jobs => generated[k] - least)
  }

  /** Ready times are never negative nor above ReadyUpper; when they are
      drawn and there is a job, one of them is 0; otherwise all are 0. */
  lemma ReadyTimesInRange(c: Config, draws: seq<real>)
    requires c.machines >= 1 && |draws| >= c.jobs && UnitDraws(draws)
    ensures var r := ReadyTimes(c, draws);
      && (forall k :: 0 <= k < c.jobs ==> 0.0 <= r[k])
      && (DrawsReadyTimes(c) ==> forall k :: 0 <= k < c.jobs ==> r[k] <= ReadyUpper(c))
      && (!DrawsReadyTimes(c) ==> forall k :: 0 <= k < c.jobs ==> r[k] == 0.0)
      && (c.jobs > 0 ==> exists k :: 0 <= k < c.jobs && r[k] == 0.0)
  {
    var r := ReadyTimes(c, draws);
    if DrawsReadyTimes(c) && c.jobs > 0 {
      assert c.jobs as real > c.machines as real by {
        assert JobsPerMachine(c) * (c.machines as real) == c.jobs as real;
      }
      var upper := ReadyUpper(c);
      assert upper > 0.0 by {
        assert JobsPerMachine(c) - 1.0 > 0.0;
      }
      var generated := seq(c.jobs, k requires 0 <= k < c.jobs => Uniform(0.0, upper, draws[k]));
      SmallestIsLeast(generated);
      var least := Smallest(generated);
      forall k | 0 <= k < c.jobs ensures 0.0 <= generated[k] <= upper {
        UniformBetween(0.0, upper, draws[k]);
      }
      var w :| 0 <= w < |generated| && least == generated[w];
      assert r[w] == 0.0;
    } else if c.jobs > 0 {
      assert r[0] == 0.0;
    }
  }

  // The persisted form.

  /** A cell as persisted: infinity becomes null. */
  function Persisted(cell: Cell): (e: Option<real>)
    ensures e.None? <==> cell.Infinite?
    ensures cell.Finite? ==> e.value == cell.value
  {
    if cell.Infinite? then None else Some(cell.value)
  }

  /** What the loader reads back from a persisted cell: the null of the
      diagonal becomes a zero setup, every other cell its drawn time. */
  lemma LoadedEntry(n: nat, structure: Structure, lo: real, hi: real, draws: seq<real>, a: nat, b: nat)
    requires a < n && b < n && |draws| >= DrawCount(n, structure)
    requires UnitDraws(draws) && lo <= hi
    ensures var v := EntryValue(Persisted(Entry(n, structure, lo, hi, draws, a, b)));
      && (a == b ==> v == 0.0)
      && (a != b ==> lo <= v <= hi)
  {
    EntryProperties(n, structure, lo, hi, draws, a, b);
  }

  /** A scenario: the validated code and its configuration, which never
      change, and the data, absent until generated. */
  class Cenario {
    const config: Config
    var setupMatrix: array2?<Cell>
    var processingTimes: Option<seq<real>>
    var readyTimes: Option<seq<real>>

    /** The configuration was decoded from a stored code, and the data is
        either all absent or all present with one entry per job. */
    ghost predicate Valid()
      reads this
    {
      && IsDecoded(config)
      && (setupMatrix == null <==> processingTimes.None?)
      && (setupMatrix == null <==> readyTimes.None?)
      && (setupMatrix != null ==>
            && setupMatrix.Length0 == config.jobs && setupMatrix.Length1 == config.jobs
            && |processingTimes.value| == config.jobs && |readyTimes.value| == config.jobs)
    }

    /** The constructor after validation: the code is stored and decoded,
        and nothing is generated yet. */
    constructor (storedCode: string)
      requires IsStoredCode(storedCode)
      ensures Valid()
      ensures config == Decode(storedCode) && config.code == storedCode
      ensures setupMatrix == null && processingTimes.None? && readyTimes.None?
    {
      config := Decode(storedCode);
      setupMatrix := null;
      processingTimes := None;
      readyTimes := None;
    }

    /** The draws a full generation takes from the stream. */
    function DataDraws(): nat {
      DrawCount(config.jobs, config.setupStructure) + 2 * config.jobs
    }

    /** _gerar_matriz_setup: the setup bounds for this scenario's
        variability, filled in the order of the double loop. */
    method GenerateSetupMatrix(root3: real, draws: seq<real>) returns (matrix: array2<Cell>)
      requires |draws| >= DrawCount(config.jobs, config.setupStructure)
      ensures fresh(matrix) && matrix.Length0 == config.jobs && matrix.Length1 == config.jobs
      ensures forall a, b :: 0 <= a < config.jobs && 0 <= b < config.jobs ==>
        matrix[a, b] == Entry(config.jobs, config.setupStructure,
                              SetupLow(config.setupVariability, root3), SetupHigh(config.setupVariability, root3),
                              draws, a, b)
    {
      var lo := SetupLow(config.setupVariability, root3);
      var hi := SetupHigh(config.setupVariability, root3);
      matrix := FillSetupMatrix(config.jobs, config.setupStructure, lo, hi, draws);
    }

    /** gerar_dados: the matrix from the head of the stream, then the
        processing times, then the ready times. */
    method GerarDados(root3: real, draws: seq<real>)
      requires Valid() && |draws| >= DataDraws()
      modifies this
      ensures Valid() && setupMatrix != null && fresh(setupMatrix)
      ensures var n, d := config.jobs, DrawCount(config.jobs, config.setupStructure);
        && (forall a, b :: 0 <= a < n && 0 <= b < n ==>
              setupMatrix[a, b] == Entry(n, config.setupStructure,
                                         SetupLow(config.setupVariability, root3), SetupHigh(config.setupVariability, root3),
                                         draws, a, b))
        && processingTimes == Some(ProcessingTimes(config, draws[d..]))
        && readyTimes == Some(ReadyTimes(config, draws[d + n..]))
    {
      var n, d := config.jobs, DrawCount(config.jobs, config.setupStructure);
      DecodedSizes(config.code);
      setupMatrix := GenerateSetupMatrix(root3, draws);
      processingTimes := Some(ProcessingTimes(config, draws[d..]));
      readyTimes := Some(ReadyTimes(config, draws[d + n..]));
    }

    /** to_dict: generates the data first if it is missing, then persists
        the configuration, the matrix with infinity as null, and the times. */
    method ToDict(root3: real, draws: seq<real>) returns (stored: StoredInstance)
      requires Valid() && |draws| >= DataDraws()
      modifies this
      ensures Valid() && setupMatrix != null
      ensures old(setupMatrix) != null ==> unchanged(this)
      ensures var n, d := config.jobs, DrawCount(config.jobs, config.setupStructure);
        old(setupMatrix) == null ==>
          && fresh(setupMatrix)
          && (forall a, b :: 0 <= a < n && 0 <= b < n ==>
                setupMatrix[a, b] == Entry(n, config.setupStructure,
                                           SetupLow(config.setupVariability, root3), SetupHigh(config.setupVariability, root3),
                                           draws, a, b))
          && processingTimes == Some(ProcessingTimes(config, draws[d..]))
          && readyTimes == Some(ReadyTimes(config, draws[d + n..]))
      ensures stored.config == config
      ensures |stored.setupMatrix| == config.jobs
      ensures forall i :: 0 <= i < config.jobs ==> |stored.setupMatrix[i]| == config.jobs
      ensures forall i, j :: 0 <= i < config.jobs && 0 <= j < config.jobs ==>
        stored.setupMatrix[i][j] == Persisted(setupMatrix[i, j])
      ensures stored.processingTimes == processingTimes.value && stored.readyTimes == readyTimes.value
    {
      if setupMatrix == null {
        GerarDados(root3, draws);
      }
      var n := config.jobs;
      var rows: seq<seq<Option<real>>> := [];
      for i := 0 to n
        invariant |rows| == i
        invariant forall a :: 0 <= a < i ==> |rows[a]| == n
        invariant forall a, b :: 0 <= a < i && 0 <= b < n ==> rows[a][b] == Persisted(setupMatrix[a, b])
      {
        var row: seq<Option<real>> := [];
        for j := 0 to n
          invariant |row| == j
          invariant forall b :: 0 <= b < j ==> row[b] == Persisted(setupMatrix[i, b])
        {
          row := row + [Persisted(setupMatrix[i, j])];
        }
        rows := rows + [row];
      }
      stored := StoredInstance(config, rows, processingTimes.value, readyTimes.value);
    }
  }

  /** Validation and construction: a malformed code is refused with an
      error, a valid one gives a scenario holding its upper-cased code. */
  method NewCenario(code: string) returns (r: Result<Cenario, CodeError>)
    ensures r.Success? <==> CheckCode(code).Success?
    ensures r.Success? ==> fresh(r.value) && r.value.Valid()
    ensures r.Success? ==> r.value.config == Decode(CheckCode(code).value)
    ensures r.Success? ==> r.value.setupMatrix == null
  {
    var checked := CheckCode(code);
    if checked.Failure? {
      return Failure(checked.error);
    }
    var scenario := new Cenario(checked.value);
    return Success(scenario);
  }
}
