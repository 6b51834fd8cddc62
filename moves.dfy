/** The three neighbourhoods of the local search, as moves on a solution:
    a transfer pops one position of a machine and appends the job to
    another machine, an inter-machine swap exchanges one position of each
    of two machines, an intra-machine swap exchanges two positions of one
    machine. Machine ids m are indices m - 1 of the solution. */
module Moves {
  import opened Instances
  import opened Partitions

  datatype Move =
    | Transfer(from: nat, to: nat, pos: nat)
    | InterSwap(m1: nat, m2: nat, i: nat, j: nat)
    | IntraSwap(m: nat, i: nat, j: nat)

  /** The moves the local search enumerates on `sol`: distinct machines for
      a transfer, m1 < m2 for an inter-machine swap, i < j for an
      intra-machine swap, and positions that exist. */
  predicate ValidMove(sol: Solution, mv: Move) {
    match mv
    case Transfer(f, t, p) => f < |sol| && t < |sol| && f != t && p < |sol[f]|
    case InterSwap(a, b, i, j) => a < b < |sol| && i < |sol[a]| && j < |sol[b]|
    case IntraSwap(m, i, j) => m < |sol| && i < j < |sol[m]|
  }

  /** The machines a move touches. */
  function Touched(mv: Move): set<nat> {
    match mv
    case Transfer(f, t, _) => {f, t}
    case InterSwap(a, b, _, _) => {a, b}
    case IntraSwap(m, _, _) => {m}
  }

  /** The neighbour a move produces. */
  function Apply(sol: Solution, mv: Move): (r: Solution)
    requires ValidMove(sol, mv)
    ensures |r| == |sol|
    ensures forall k :: 0 <= k < |sol| && k !in Touched(mv) ==> r[k] == sol[k]
  {
    match mv
    case Transfer(f, t, p) =>
      sol[f := sol[f][..p] + sol[f][p + 1..]][t := sol[t] + [sol[f][p]]]
    case InterSwap(a, b, i, j) =>
      sol[a := sol[a][i := sol[b][j]]][b := sol[b][j := sol[a][i]]]
    case IntraSwap(m, i, j) =>
      sol[m := sol[m][i := sol[m][j]][j := sol[m][i]]]
  }

  lemma UpdateMultiset(s: seq<Job>, i: nat, v: Job)
    requires i < |s|
    ensures multiset(s[i := v]) + multiset{s[i]} == multiset(s) + multiset{v}
  {
    assert s == s[..i] + [s[i]] + s[i + 1..];
    assert s[i := v] == s[..i] + [v] + s[i + 1..];
  }

  /** The bookkeeping of an exchange: one machine gives x and takes y,
      the other gives y and takes x, so the whole is unchanged. */
  lemma SwapBalance(B: multiset<Job>, B1: multiset<Job>, B2: multiset<Job>,
                    A: multiset<Job>, A': multiset<Job>, C: multiset<Job>, C': multiset<Job>, x: Job, y: Job)
    requires B1 + A == B + A' && B2 + C == B1 + C'
    requires A' + multiset{x} == A + multiset{y} && C' + multiset{y} == C + multiset{x}
    ensures B2 == B
  {
    forall z ensures B2[z] == B[z] {
      assert (B1 + A)[z] == (B + A')[z];
      assert (B2 + C)[z] == (B1 + C')[z];
      assert (A' + multiset{x})[z] == (A + multiset{y})[z];
      assert (C' + multiset{y})[z] == (C + multiset{x})[z];
    }
  }

  lemma TransferKeepsBag(sol: Solution, f: nat, t: nat, p: nat)
    requires ValidMove(sol, Transfer(f, t, p))
    ensures Bag(Apply(sol, Transfer(f, t, p))) == Bag(sol)
  {
    var x := sol[f][p];
    var s1 := sol[f][..p] + sol[f][p + 1..];
    var s2 := sol[t] + [x];
    var sol1 := sol[f := s1];
    var sol2 := sol1[t := s2];
    assert sol[f] == sol[f][..p] + [x] + sol[f][p + 1..];
    assert multiset(sol[f]) == multiset(s1) + multiset{x};
    assert multiset(s2) == multiset(sol[t]) + multiset{x};
    BagUpdate(sol, f, s1);
    assert sol1[t] == sol[t];
    BagUpdate(sol1, t, s2);
    ghost var B, B1, B2 := Bag(sol), Bag(sol1), Bag(sol2);
    assert B1 + multiset(sol[f]) == B + multiset(s1);
    assert B2 + multiset(sol[t]) == B1 + multiset(s2);
    assert B1 + multiset{x} + multiset(s1) == B + multiset(s1);
    Cancel(B1 + multiset{x}, B, multiset(s1));
    assert B2 + multiset(sol[t]) == B + multiset(sol[t]);
    Cancel(B2, B, multiset(sol[t]));
    assert Apply(sol, Transfer(f, t, p)) == sol2;
  }

  lemma InterSwapKeepsBag(sol: Solution, a: nat, b: nat, i: nat, j: nat)
    requires ValidMove(sol, InterSwap(a, b, i, j))
    ensures Bag(Apply(sol, InterSwap(a, b, i, j))) == Bag(sol)
  {
    var x, y := sol[a][i], sol[b][j];
    var sa, sb := sol[a][i := y], sol[b][j := x];
    var sol1 := sol[a := sa];
    var sol2 := sol1[b := sb];
    UpdateMultiset(sol[a], i, y);
    UpdateMultiset(sol[b], j, x);
    BagUpdate(sol, a, sa);
    assert sol1[b] == sol[b];
    BagUpdate(sol1, b, sb);
    ghost var B, B1, B2 := Bag(sol), Bag(sol1), Bag(sol2);
    ghost var A, A', C, C' := multiset(sol[a]), multiset(sa), multiset(sol[b]), multiset(sb);
    assert B1 + A == B + A';
    assert B2 + C == B1 + C';
    assert A' + multiset{x} == A + multiset{y};
    assert C' + multiset{y} == C + multiset{x};
    SwapBalance(B, B1, B2, A, A', C, C', x, y);
    assert Apply(sol, InterSwap(a, b, i, j)) == sol2;
  }

  lemma IntraSwapKeepsBag(sol: Solution, m: nat, i: nat, j: nat)
    requires ValidMove(sol, IntraSwap(m, i, j))
    ensures Bag(Apply(sol, IntraSwap(m, i, j))) == Bag(sol)
  {
    var x, y := sol[m][i], sol[m][j];
    var s1 := sol[m][i := y];
    var s2 := s1[j := x];
    UpdateMultiset(sol[m], i, y);
    UpdateMultiset(s1, j, x);
    assert s1[j] == y;
    assert multiset(s2) + multiset{x} + multiset{y} == multiset(sol[m]) + multiset{x} + multiset{y};
    Cancel(multiset(s2), multiset(sol[m]), multiset{x} + multiset{y});
    BagUpdate(sol, m, s2);
    Cancel(Bag(sol[m := s2]), Bag(sol), multiset(sol[m]));
    assert Apply(sol, IntraSwap(m, i, j)) == sol[m := s2];
  }

  /** Every move keeps the jobs of the solution, with their multiplicity. */
  lemma ApplyKeepsBag(sol: Solution, mv: Move)
    requires ValidMove(sol, mv)
    ensures Bag(Apply(sol, mv)) == Bag(sol)
  {
    match mv
    case Transfer(f, t, p) => TransferKeepsBag(sol, f, t, p);
    case InterSwap(a, b, i, j) => InterSwapKeepsBag(sol, a, b, i, j);
    case IntraSwap(m, i, j) => IntraSwapKeepsBag(sol, m, i, j);
  }

  /** Hence a neighbour of a partition is a partition. */
  lemma ApplyKeepsPartition(sol: Solution, n: nat, mv: Move)
    requires ValidMove(sol, mv) && IsPartition(sol, n)
    ensures IsPartition(Apply(sol, mv), n)
  {
    ApplyKeepsBag(sol, mv);
  }

  /** What each move does to the machines it touches. */
  lemma ApplyEffect(sol: Solution, mv: Move)
    requires ValidMove(sol, mv)
    ensures var r := Apply(sol, mv);
      match mv
      case Transfer(f, t, p) =>
        && r[f] == sol[f][..p] + sol[f][p + 1..]
        && r[t] == sol[t] + [sol[f][p]]
      case InterSwap(a, b, i, j) =>
        && |r[a]| == |sol[a]| && |r[b]| == |sol[b]|
        && r[a][i] == sol[b][j] && r[b][j] == sol[a][i]
        && (forall x :: 0 <= x < |sol[a]| && x != i ==> r[a][x] == sol[a][x])
        && (forall y :: 0 <= y < |sol[b]| && y != j ==> r[b][y] == sol[b][y])
      case IntraSwap(m, i, j) =>
        && |r[m]| == |sol[m]|
        && r[m][i] == sol[m][j] && r[m][j] == sol[m][i]
        && forall x :: 0 <= x < |sol[m]| && x != i && x != j ==> r[m][x] == sol[m][x]
  {
  }
}
