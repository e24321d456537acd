/** What one Kernighan-Lin pass computes, selection by selection, over either
    arithmetic. */
module KLSpec {
  import opened Numbers
  import opened CallGraphs

  datatype Move = Move(moved: FunctionId, gain: real)

  /** The pass's own fields at the moment a maximum is selected. */
  datatype PassState = PassState(candidates: seq<FunctionId>, gains: seq<real>, moves: seq<Move>)

  /** Gain of moving f out of the insecure set: external - internal + node cost. */
  function Gain(m: Arithmetic, g: CallGraph, f: FunctionId, insecure: set<FunctionId>): real {
    Plus(m, Plus(m, External(m, g, f, insecure), -Internal(m, g, f, insecure)), NodeCost(g, f))
  }

  function InitialGains(m: Arithmetic, g: CallGraph, candidates: seq<FunctionId>,
                        insecure: set<FunctionId>): seq<real> {
    seq(|candidates|, i requires 0 <= i < |candidates| => Gain(m, g, candidates[i], insecure))
  }

  /** The incremental update after `moved` has left. */
  function UpdatedGains(m: Arithmetic, g: CallGraph, candidates: seq<FunctionId>, gains: seq<real>,
                        moved: FunctionId): seq<real>
    requires |candidates| == |gains|
  {
    seq(|gains|, i requires 0 <= i < |gains| =>
      Plus(m, gains[i], 2.0 * EdgeCost(m, g, candidates[i], moved)))
  }

  /** Position of the first maximum among the first n entries. */
  function FirstMax(gains: seq<real>, n: nat): (k: nat)
    requires 0 < n <= |gains|
    ensures k < n
    ensures forall i :: 0 <= i < n ==> gains[i] <= gains[k]
    ensures forall i :: 0 <= i < k ==> gains[i] < gains[k]
  {
    if n == 1 then 0
    else
      var k := FirstMax(gains, n - 1);
      if gains[k] < gains[n - 1] then n - 1 else k
  }

  function Erase<T>(s: seq<T>, k: nat): seq<T>
    requires k < |s|
  {
    s[..k] + s[k + 1..]
  }

  /** Select the first maximum, move it, and bring the gains up to date. */
  function Step(m: Arithmetic, g: CallGraph, st: PassState): (next: PassState)
    requires 0 < |st.candidates| == |st.gains|
    ensures |next.candidates| == |next.gains| == |st.gains| - 1
    ensures |next.moves| == |st.moves| + 1 && st.moves == next.moves[..|st.moves|]
  {
    var k := FirstMax(st.gains, |st.gains|);
    var f := st.candidates[k];
    var candidates := Erase(st.candidates, k);
    PassState(candidates,
              UpdatedGains(m, g, candidates, Erase(st.gains, k), f),
              st.moves + [Move(f, st.gains[k])])
  }

  /** The state at selection j, counted from 0. */
  function After(m: Arithmetic, g: CallGraph, insecure: set<FunctionId>, candidates: seq<FunctionId>,
                 j: nat): (st: PassState)
    requires j <= |candidates|
    ensures |st.candidates| == |st.gains| == |candidates| - j
    ensures |st.moves| == j
  {
    if j == 0 then PassState(candidates, InitialGains(m, g, candidates, insecure), [])
    else Step(m, g, After(m, g, insecure, candidates, j - 1))
  }

  /** next is the state of the following selection. */
  ghost predicate Follows(m: Arithmetic, g: CallGraph, st: PassState, next: PassState) {
    && 0 < |st.candidates| == |st.gains|
    && var k := FirstMax(st.gains, |st.gains|);
    && next.candidates == Erase(st.candidates, k)
    && next.gains == UpdatedGains(m, g, next.candidates, Erase(st.gains, k), st.candidates[k])
    && next.moves == st.moves + [Move(st.candidates[k], st.gains[k])]
  }

  /** All moves of the pass, in order. */
  function Trace(m: Arithmetic, g: CallGraph, insecure: set<FunctionId>,
                 candidates: seq<FunctionId>): (moves: seq<Move>)
    ensures |moves| == |candidates|
  {
    After(m, g, insecure, candidates, |candidates|).moves
  }

  function Functions(moves: seq<Move>): set<FunctionId> {
    set i | 0 <= i < |moves| :: moves[i].moved
  }

  datatype Best = Best(maxGain: real, sum: real, keep: nat)

  /** The scan over the first n recorded moves; `keep` is the length of the best
      prefix so far, a later prefix winning a tie. */
  function Scan(m: Arithmetic, moves: seq<Move>, n: nat): (b: Best)
    requires n <= |moves|
    ensures b.keep <= n
  {
    if n == 0 then Best(0.0, 0.0, 0)
    else
      var b := Scan(m, moves, n - 1);
      var sum := Plus(m, b.sum, moves[n - 1].gain);
      if b.maxGain <= sum then Best(sum, sum, n) else Best(b.maxGain, sum, b.keep)
  }

  function KeepCount(m: Arithmetic, g: CallGraph, insecure: set<FunctionId>, candidates: seq<FunctionId>): (k: nat)
    ensures k <= |candidates|
  {
    var moves := Trace(m, g, insecure, candidates);
    Scan(m, moves, |moves|).keep
  }

  /** The functions the pass ends up moving. */
  function Kept(m: Arithmetic, g: CallGraph, insecure: set<FunctionId>, candidates: seq<FunctionId>): set<FunctionId> {
    Functions(Trace(m, g, insecure, candidates)[..KeepCount(m, g, insecure, candidates)])
  }

  ghost predicate Distinct<T(!new)>(s: seq<T>) {
    forall i, j :: 0 <= i < j < |s| ==> s[i] != s[j]
  }

  function Elements<T>(s: seq<T>): set<T> {
    set x | x in s
  }
}
