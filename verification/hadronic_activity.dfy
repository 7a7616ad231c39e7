/** Per-event selection of the hadronic-activity producer.

    For one event the producer picks one of its configured candidate
    collections (optionally chosen by a selector applied to the first veto
    object), walks that collection in order, drops candidates that lie within
    the veto cone of either photon of the first veto object, and makes the
    remaining candidates, up to a cap, the daughters of exactly one composite
    candidate.

    Candidates (`C`), veto objects (`V`) and the veto object's photons (`P`)
    are opaque. The angular distance is the function `deltaR` of a
    `VetoGeometry`, and the selector is a function `V -> nat`.
 */
module HadronicActivity {
  import opened Wrappers
  import opened Sequences

  /** Configuration resolved at construction: `maxCand` (a non-positive value
      means "no cap") and the veto cone radius. Whether veto mode is on is the
      presence of the veto collection, see `Produce`. */
  datatype Config = Config(maxCand: int, vetoCone: real)

  /** The values the constructor starts from when a parameter is absent. */
  const DefaultConfig: Config := Config(-1, 0.4)

  /** How a veto object is looked at: its two photons and the angular
      distance from a photon to a candidate. */
  datatype VetoGeometry<!V, !P, !C> = VetoGeometry(
    leading: V -> P,
    subleading: V -> P,
    deltaR: (P, C) -> real)

  /** The composite candidate the producer emits. Its four-momentum is the sum
      of its daughters' and is not modelled. */
  datatype Composite<C> = Composite(daughters: seq<C>)

  /** The default selector: every veto object selects the first source. */
  function TrivialVetex<V>(obj: V): (index: nat)
    ensures index == 0
  {
    0
  }

  /** The veto object that steers the event: the first one of the veto
      collection, when veto mode is on and the collection is not empty. */
  function ActiveVeto<V>(veto: Option<seq<V>>): (r: Option<V>)
    ensures r.Some? <==> veto.Some? && |veto.value| > 0
    ensures r.Some? ==> r.value == veto.value[0]
  {
    match veto
    case Some(vs) => if |vs| > 0 then Some(vs[0]) else None
    case None => None
  }

  /** The index of the source collection read for the event: the selector's
      answer for the active veto object, 0 without one. A request past the
      last source falls back to the first source, not to the last one. */
  function SourceIndex<V>(n: nat, veto: Option<seq<V>>, selector: V -> nat): (i: nat)
    requires n > 0
    ensures i < n
    ensures ActiveVeto(veto).None? ==> i == 0
    ensures ActiveVeto(veto).Some? && selector(ActiveVeto(veto).value) < n ==>
      i == selector(ActiveVeto(veto).value)
    ensures ActiveVeto(veto).Some? && selector(ActiveVeto(veto).value) >= n ==> i == 0
  {
    var requested := match ActiveVeto(veto)
      case Some(v) => selector(v)
      case None => 0;
    if requested > n - 1 then 0 else requested
  }

  /** The number of daughters the event may receive: `maxCand` when it is
      positive, the size of the chosen collection otherwise. */
  function Limit(maxCand: int, size: nat): (count: nat)
    ensures maxCand > 0 ==> count == maxCand
    ensures maxCand <= 0 ==> count == size
  {
    if maxCand > 0 then maxCand else size
  }

  /** The angular test: the candidate is strictly inside the cone around the photon. */
  predicate Near<V, P, C>(geo: VetoGeometry<V, P, C>, cone: real, photon: P, cand: C)
  {
    geo.deltaR(photon, cand) < cone
  }

  /** A candidate is accepted unless there is an active veto object and the
      candidate is near its leading or its subleading photon. */
  predicate Accepts<V, P, C>(active: Option<V>, geo: VetoGeometry<V, P, C>, cone: real, cand: C)
    ensures Accepts(active, geo, cone, cand) <==>
      || active.None?
      || (&& geo.deltaR(geo.leading(active.value), cand) >= cone
          && geo.deltaR(geo.subleading(active.value), cand) >= cone)
  {
    match active
    case None => true
    case Some(v) => !(Near(geo, cone, geo.leading(v), cand) || Near(geo, cone, geo.subleading(v), cand))
  }

  function Acceptor<V, P, C>(active: Option<V>, geo: VetoGeometry<V, P, C>, cone: real): C -> bool
  {
    cand => Accepts(active, geo, cone, cand)
  }

  /** The scan of the chosen collection: candidates are visited in order while
      the remaining count is positive; an accepted candidate is appended and
      uses up one unit of the count, a rejected one is skipped for free. */
  function Scan<C>(coll: seq<C>, keep: C -> bool, count: nat): (r: seq<C>)
    ensures |r| <= count
    ensures IsSubsequence(r, coll)
    ensures forall i :: 0 <= i < |r| ==> keep(r[i])
  {
    if |coll| == 0 || count == 0 then []
    else if keep(coll[0]) then
      var r := [coll[0]] + Scan(coll[1..], keep, count - 1);
      assert r[1..] == Scan(coll[1..], keep, count - 1);
      r
    else Scan(coll[1..], keep, count)
  }

  /** The selection loop as the producer writes it: an index over the
      collection and a count of daughters still allowed. */
  method SelectDaughters<C>(coll: seq<C>, keep: C -> bool, limit: nat) returns (out: seq<C>)
    ensures out == Scan(coll, keep, limit)
    ensures out == Take(Filter(keep, coll), limit)
  {
    out := [];
    var count := limit;
    var iob := 0;
    while iob < |coll| && count > 0
      invariant 0 <= iob <= |coll|
      invariant out + Scan(coll[iob..], keep, count) == Scan(coll, keep, limit)
      decreases |coll| - iob
    {
      var cand := coll[iob];
      assert coll[iob..][1..] == coll[iob + 1..];
      if keep(cand) {
        out := out + [cand];
        count := count - 1;
      }
      iob := iob + 1;
    }
    assert Scan(coll[iob..], keep, count) == [];
    ScanIsTakeFilter(coll, keep, limit);
  }

  /** Skipping a rejected candidate does not use up the cap: the scan takes the
      first `count` accepted candidates. */
  lemma {:induction false} ScanIsTakeFilter<C>(coll: seq<C>, keep: C -> bool, count: nat)
    ensures Scan(coll, keep, count) == Take(Filter(keep, coll), count)
  {
    if |coll| == 0 || count == 0 {
    } else if keep(coll[0]) {
      ScanIsTakeFilter(coll[1..], keep, count - 1);
      assert Filter(keep, coll) == [coll[0]] + Filter(keep, coll[1..]);
    } else {
      ScanIsTakeFilter(coll[1..], keep, count);
    }
  }

  /** One event: the chosen collection, the cap and the veto filter give the
      daughters of the single composite candidate the event receives. The
      result always holds exactly one composite, possibly without daughters. */
  function Produce<C, V, P>(
    cfg: Config,
    sources: seq<seq<C>>,
    veto: Option<seq<V>>,
    selector: V -> nat,
    geo: VetoGeometry<V, P, C>): (out: seq<Composite<C>>)
    requires |sources| > 0
    ensures |out| == 1
    ensures var coll := sources[SourceIndex(|sources|, veto, selector)];
      && IsSubsequence(out[0].daughters, coll)
      && out[0].daughters
         == Take(Filter(Acceptor(ActiveVeto(veto), geo, cfg.vetoCone), coll), Limit(cfg.maxCand, |coll|))
    ensures cfg.maxCand > 0 ==> |out[0].daughters| <= cfg.maxCand
    ensures ActiveVeto(veto).Some? ==>
      var v := ActiveVeto(veto).value;
      forall i :: 0 <= i < |out[0].daughters| ==>
        && !Near(geo, cfg.vetoCone, geo.leading(v), out[0].daughters[i])
        && !Near(geo, cfg.vetoCone, geo.subleading(v), out[0].daughters[i])
  {
    var coll := sources[SourceIndex(|sources|, veto, selector)];
    var active := ActiveVeto(veto);
    var keep := Acceptor(active, geo, cfg.vetoCone);
    var daughters := Scan(coll, keep, Limit(cfg.maxCand, |coll|));
    ScanIsTakeFilter(coll, keep, Limit(cfg.maxCand, |coll|));
    assert forall i :: 0 <= i < |daughters| ==> Accepts(active, geo, cfg.vetoCone, daughters[i]);
    [Composite(daughters)]
  }
}
