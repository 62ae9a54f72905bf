/**
  The temporary-file pool: one root directory, the set of paths that were
  handed back and may be handed out again, and a random source for the
  names of fresh files.
*/
module Temporary {

  import opened Wrappers
  import opened Paths
  import opened Errors
  import opened Fs

  /** What the pool's operations read and change, as a value. */
  datatype PoolState = PoolState(root: Path, avail: set<Path>, drawn: nat)

  /** The fresh path named by the random number `n`. */
  function FreshPath(root: Path, n: nat): (p: Path)
    ensures Under(p, root) && IsDigits(p[|root| + 1..])
  {
    Join(root, Decimal(n))
  }

  /** One `Search`: take some available path, if there is one. Which one is
      not determined, since the set has no order. */
  predicate SearchStep(s: PoolState, s': PoolState, vf: Path, found: bool)
  {
    if s.avail == {} then !found && vf == "" && s' == s
    else found && vf in s.avail && s' == s.(avail := s.avail - {vf})
  }

  /** One `Get`: reuse as `Search` does, otherwise name a fresh file after the
      next random number. */
  predicate GetStep(draws: nat -> nat, s: PoolState, s': PoolState, vf: Path)
  {
    if s.avail != {} then SearchStep(s, s', vf, true)
    else vf == FreshPath(s.root, draws(s.drawn)) && s' == s.(drawn := s.drawn + 1)
  }

  /** One `Put`: the path becomes available. */
  function Release(s: PoolState, p: Path): PoolState
  {
    s.(avail := s.avail + {p})
  }

  class Files {
    /** The directory all fresh files are named under. */
    const RootDir: Path
    /** The paths ready for reuse. */
    var files: set<Path>
    /** The random source: its n-th number is `draws(n)`. */
    const draws: nat -> nat
    /** How many numbers have been taken from the random source. */
    var drawn: nat

    function State(): PoolState
      reads this
    {
      PoolState(RootDir, files, drawn)
    }

    /** A pool for an existing directory, with nothing to reuse yet. */
    constructor FromDir(rootDir: Path, rng: nat -> nat)
      ensures State() == PoolState(rootDir, {}, 0)
      ensures draws == rng
    {
      RootDir := rootDir;
      files := {};
      draws := rng;
      drawn := 0;
    }

    /** The same pool behind a lock; it shares this pool's set and random source. */
    method Mutexed() returns (m: Mutexed)
      ensures fresh(m) && m.files == this
    {
      m := new Mutexed(this);
    }

    method Search() returns (vf: Path, found: bool)
      modifies this`files
      ensures SearchStep(old(State()), State(), vf, found)
    {
      found := files != {};
      if found {
        vf :| vf in files;
        files := files - {vf};
      } else {
        vf := "";
      }
    }

    /** Reuses an available path, or else names a fresh one; never fails. */
    method Get() returns (vf: Path, err: Option<Error>)
      modifies this`files, this`drawn
      ensures err == None
      ensures GetStep(draws, old(State()), State(), vf)
    {
      var found;
      vf, found := Search();
      err := None;
      if found {
        return;
      }
      vf := NewFile();
    }

    method NewFile() returns (vf: Path)
      modifies this`drawn
      ensures vf == FreshPath(RootDir, draws(old(drawn)))
      ensures drawn == old(drawn) + 1
    {
      vf := FreshPath(RootDir, draws(drawn));
      drawn := drawn + 1;
    }

    method Put(vf: Path)
      modifies this`files
      ensures State() == Release(old(State()), vf)
    {
      files := files + {vf};
    }

    /** Removes the root directory with all it holds; the error is the removal's own. */
    method Remove(fs: FileSystem) returns (err: Option<Error>)
      modifies fs
      ensures err == Attempt(fs.faults, RemoveDir, RootDir)
      ensures fs.disk == if err.None? then RemoveTree(old(fs.disk), RootDir) else old(fs.disk)
    {
      err := fs.RemoveAll(RootDir);
    }
  }

  /** A `Files` whose operations run one at a time. The lock itself is not
      modelled: every operation forwards to the wrapped pool. */
  class Mutexed {
    const files: Files

    constructor (f: Files)
      ensures files == f
    {
      files := f;
    }

    method Get() returns (vf: Path, err: Option<Error>)
      modifies files`files, files`drawn
      ensures err == None
      ensures GetStep(files.draws, old(files.State()), files.State(), vf)
    {
      vf, err := files.Get();
    }

    method Search() returns (vf: Path, found: bool)
      modifies files`files
      ensures SearchStep(old(files.State()), files.State(), vf, found)
    {
      vf, found := files.Search();
    }

    method Put(vf: Path)
      modifies files`files
      ensures files.State() == Release(old(files.State()), vf)
    {
      files.Put(vf);
    }
  }

  // ------------------------------------------------------- single operations

  /** `Search` finds a path exactly when one is available; what it takes is no
      longer available and nothing else changes. */
  lemma SearchOutcome(s: PoolState, s': PoolState, vf: Path, found: bool)
    requires SearchStep(s, s', vf, found)
    ensures found <==> s.avail != {}
    ensures !found ==> s' == s
    ensures found ==> vf in s.avail && vf !in s'.avail && s'.avail + {vf} == s.avail
    ensures found ==> |s'.avail| == |s.avail| - 1
    ensures s'.root == s.root && s'.drawn == s.drawn
  {
  }

  /** Handing back what `Search` took restores the pool. */
  lemma SearchThenPut(s: PoolState, s': PoolState, vf: Path)
    requires SearchStep(s, s', vf, true)
    ensures Release(s', vf) == s
  {
  }

  /** `Put` is idempotent, and putting an available path changes nothing. */
  lemma PutIdempotent(s: PoolState, p: Path)
    ensures Release(Release(s, p), p) == Release(s, p)
    ensures p in s.avail ==> Release(s, p) == s
    ensures p in Release(s, p).avail
  {
  }

  /** With paths available, `Get` is a successful `Search`; with none, it names
      the file after the next random number, takes exactly one number and
      leaves the set as it was. */
  lemma GetStepOutcome(draws: nat -> nat, s: PoolState, s': PoolState, vf: Path)
    requires GetStep(draws, s, s', vf)
    ensures s.avail != {} ==> SearchStep(s, s', vf, true)
    ensures s.avail == {} ==> vf == Join(s.root, Decimal(draws(s.drawn)))
    ensures s.avail == {} ==> s'.drawn == s.drawn + 1 && s'.avail == s.avail
    ensures s'.root == s.root
  {
  }

  /** What `Get` hands out is not left available, and `Get` never adds to the set. */
  lemma GetTakesOut(draws: nat -> nat, s: PoolState, s': PoolState, vf: Path)
    requires GetStep(draws, s, s', vf)
    ensures vf !in s'.avail
    ensures s'.avail <= s.avail
    ensures s'.drawn >= s.drawn
  {
  }

  /** A path handed back to an empty pool is the next one `Get` returns. */
  lemma ReuseAfterPut(draws: nat -> nat, s: PoolState, p: Path, s': PoolState, vf: Path)
    requires s.avail == {}
    requires GetStep(draws, Release(s, p), s', vf)
    ensures vf == p && s'.avail == {}
  {
  }

  /** A fresh name has no extension. */
  lemma FreshPathHasNoExt(root: Path, n: nat)
    ensures Ext(FreshPath(root, n)) == ""
  {
    ExtOfDecimalName(root, n);
  }

  /** Different random numbers name different fresh files. */
  lemma FreshPathInjective(root: Path, m: nat, n: nat)
    requires FreshPath(root, m) == FreshPath(root, n)
    ensures m == n
  {
    JoinInjective(root, Decimal(m), Decimal(n));
    DecimalInjective(m, n);
  }

  // ------------------------------------------------- runs of Get without Put

  /** `outs` are the paths that successive `Get` calls returned, passing the
      pool through `states`, with no `Put` in between. */
  predicate GetRun(draws: nat -> nat, states: seq<PoolState>, outs: seq<Path>)
  {
    |states| == |outs| + 1 &&
    forall i :: 0 <= i < |outs| ==> GetStep(draws, states[i], states[i + 1], outs[i])
  }

  /** Along a run the root stays, the available set only shrinks, and the
      random source only advances. */
  lemma {:induction false} RunMonotone(draws: nat -> nat, states: seq<PoolState>, outs: seq<Path>, i: nat, j: nat)
    requires GetRun(draws, states, outs)
    requires i <= j < |states|
    ensures states[j].root == states[i].root
    ensures states[j].avail <= states[i].avail
    ensures states[j].drawn >= states[i].drawn
    decreases j - i
  {
    if i < j {
      RunMonotone(draws, states, outs, i + 1, j);
      GetTakesOut(draws, states[i], states[i + 1], outs[i]);
    }
  }

  /** No path is handed out twice while reuse lasts: a path `Get` reuses was
      not handed out by any earlier `Get` of the run. So each path that was
      available at the start comes out at most once. */
  lemma RunReusesOnce(draws: nat -> nat, states: seq<PoolState>, outs: seq<Path>)
    requires GetRun(draws, states, outs)
    ensures forall i, j :: 0 <= i < j < |outs| && states[j].avail != {} ==> outs[i] != outs[j]
    ensures forall j :: 0 <= j < |outs| && states[j].avail != {} ==> outs[j] in states[0].avail
  {
    forall i, j | 0 <= i < j < |outs| && states[j].avail != {}
      ensures outs[i] != outs[j]
    {
      assert GetStep(draws, states[j], states[j + 1], outs[j]);
      assert GetStep(draws, states[i], states[i + 1], outs[i]);
      RunMonotone(draws, states, outs, i + 1, j);
    }
    forall j | 0 <= j < |outs| && states[j].avail != {}
      ensures outs[j] in states[0].avail
    {
      assert GetStep(draws, states[j], states[j + 1], outs[j]);
      RunMonotone(draws, states, outs, 0, j);
    }
  }

  /** If the random source never repeats a number, fresh paths never repeat:
      once the set is empty, every later `Get` names a file no earlier `Get`
      of the run returned. */
  lemma RunFreshUnique(draws: nat -> nat, states: seq<PoolState>, outs: seq<Path>)
    requires GetRun(draws, states, outs)
    requires forall a: nat, b: nat :: a < b ==> draws(a) != draws(b)
    ensures forall i, j :: 0 <= i < j < |outs| && states[i].avail == {} ==> outs[i] != outs[j]
  {
    forall i, j | 0 <= i < j < |outs| && states[i].avail == {}
      ensures outs[i] != outs[j]
    {
      assert GetStep(draws, states[i], states[i + 1], outs[i]);
      RunMonotone(draws, states, outs, i + 1, j);
      RunMonotone(draws, states, outs, i, j);
      assert GetStep(draws, states[j], states[j + 1], outs[j]);
      if outs[i] == outs[j] {
        FreshPathInjective(states[i].root, draws(states[i].drawn), draws(states[j].drawn));
        assert false;
      }
    }
  }

  /** A run that starts with nothing to reuse, under a random source that never
      repeats, returns pairwise distinct paths. */
  lemma RunFromEmptyDistinct(draws: nat -> nat, states: seq<PoolState>, outs: seq<Path>)
    requires GetRun(draws, states, outs)
    requires forall a: nat, b: nat :: a < b ==> draws(a) != draws(b)
    requires states[0].avail == {}
    ensures forall i, j :: 0 <= i < j < |outs| ==> outs[i] != outs[j]
  {
    RunFreshUnique(draws, states, outs);
    forall i | 0 <= i < |outs|
      ensures states[i].avail == {}
    {
      RunMonotone(draws, states, outs, 0, i);
    }
  }
}
