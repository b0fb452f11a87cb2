/** The two limits of the verifier: what it counts, and when that decides. */
module FlatVerifierLimits {
  import opened Bytes
  import opened FlatVerifier

  /** How many tables there are, and how deep they are nested. */
  datatype Extent = Extent(visits: nat, nesting: nat)

  function Both(x: Extent, y: Extent): Extent {
    Extent(x.visits + y.visits, Max(x.nesting, y.nesting))
  }

  const NO_TABLE := Extent(0, 0)

  predicate Fits(opts: Options, c: Counters, e: Extent) {
    c.depth + e.nesting <= opts.maxDepth && c.tables + e.visits <= opts.maxTables
  }

  /** The verifier got through without leaving the buffer, and only `good` and the limits decided. */
  predicate Settled(opts: Options, c: Counters, good: bool, e: Extent, r: Read<Verdict>) {
    && r.Ok?
    && (r.value.ok <==> good && Fits(opts, c, e))
    && (r.value.ok ==> r.value.counters == Counters(c.depth, c.tables + e.visits))
  }

  function Closed(r: Read<Verdict>): Read<Verdict> {
    match r
    case Ok(w) => Ok(if w.ok then Verdict(true, EndTable(w.counters)) else w)
    case Oob => Oob
  }

  function Grown(e: Extent): Extent {
    Extent(e.visits + 1, e.nesting + 1)
  }

  lemma LeaveTable(opts: Options, c: Counters, good: bool, e: Extent, r: Read<Verdict>)
    requires Within(opts, c)
    requires VerifyComplexity(opts, c).ok ==> Settled(opts, VerifyComplexity(opts, c).counters, good, e, r)
    ensures var v := VerifyComplexity(opts, c);
      Settled(opts, c, good, Grown(e), if !v.ok then Ok(v) else Closed(r))
  {
  }
}
