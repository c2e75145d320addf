/**
 * Smooth weighted round robin, packages/gateway/src/balancer.ts.  The class keeps
 * a credit per target id; `Choose` is what one pick computes from those credits.
 */
module Balancer {
  import opened Common

  /** `weight` as the caller gave it: missing, NaN or infinite, or a finite number. */
  datatype Weight = Missing | NotFinite | Finite(value: real)

  datatype Target = Target(id: string, weight: Weight)

  function NormalizeWeight(t: Target): (w: nat)
    ensures t.weight.Finite? && t.weight.value >= 1.0 ==> 1 <= w && w as real <= t.weight.value < w as real + 1.0
    ensures !(t.weight.Finite? && t.weight.value >= 1.0) ==> w == 1
  {
    match t.weight
    case Finite(v) => if v.Floor < 1 then 1 else v.Floor
    case _ => 1
  }

  function Credit(credits: map<string, int>, id: string): int {
    if id in credits then credits[id] else 0
  }

  function Ids(cs: seq<Target>): set<string> {
    set c | c in cs :: c.id
  }

  function Prune(credits: map<string, int>, present: set<string>): map<string, int> {
    map id | id in credits && id in present :: credits[id]
  }

  /** The state of the loop over the candidates. */
  datatype Scan = Scan(credits: map<string, int>, total: nat, best: Option<Target>, bestCurrent: int)

  function ScanOne(s: Scan, c: Target): Scan {
    var w := NormalizeWeight(c);
    var next := Credit(s.credits, c.id) + w;
    var better := s.best.None? || next > s.bestCurrent;
    Scan(s.credits[c.id := next], s.total + w,
         if better then Some(c) else s.best, if better then next else s.bestCurrent)
  }

  /** The loop over the first `n` candidates. */
  function ScanAll(credits: map<string, int>, cs: seq<Target>, n: nat): (s: Scan)
    requires n <= |cs|
    ensures s.best.Some? <==> n > 0
  {
    if n == 0 then Scan(credits, 0, None, 0) else ScanOne(ScanAll(credits, cs, n - 1), cs[n - 1])
  }

  /** One pick: the new credits and the chosen target. */
  function Choose(credits: map<string, int>, cs: seq<Target>): (map<string, int>, Option<Target>) {
    if |cs| == 0 then (credits, None)
    else
      var s := ScanAll(Prune(credits, Ids(cs)), cs, |cs|);
      (s.credits[s.best.value.id := s.bestCurrent - s.total], s.best)
  }

  class WeightedRoundRobin {
    var current: map<string, int>

    constructor ()
      ensures current == map[]
    {
      current := map[];
    }

    method Pick(cs: seq<Target>) returns (r: Option<Target>)
      modifies this
      ensures (current, r) == Choose(old(current), cs)
    {
      if |cs| == 0 {
        return None;
      }
      PruneAbsent(Ids(cs));
      ghost var pruned := current;
      var total: nat := 0;
      var best: Option<Target> := None;
      var bestCurrent := 0;
      for i := 0 to |cs|
        invariant Scan(current, total, best, bestCurrent) == ScanAll(pruned, cs, i)
      {
        var candidate := cs[i];
        var weight := NormalizeWeight(candidate);
        total := total + weight;
        var next := (if candidate.id in current then current[candidate.id] else 0) + weight;
        current := current[candidate.id := next];
        if best == None || next > bestCurrent {
          best := Some(candidate);
          bestCurrent := next;
        }
      }
      current := current[best.value.id := bestCurrent - total];
      return best;
    }

    /** Drop the credits of targets no longer present. */
    method PruneAbsent(present: set<string>)
      modifies this
      ensures current == Prune(old(current), present)
    {
      var ids := current.Keys;
      while ids != {}
        invariant ids <= old(current).Keys
        invariant current == map id | id in old(current) && (id in ids || id in present) :: old(current)[id]
      {
        var id :| id in ids;
        if id !in present {
          current := current - {id};
        }
        ids := ids - {id};
      }
    }
  }
}
