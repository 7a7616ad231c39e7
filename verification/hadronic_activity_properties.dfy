/** Properties of the per-event selection that relate several calls or
    follow from the selection's definition for particular inputs. */
module HadronicActivityProperties {
  import opened Wrappers
  import opened Sequences
  import opened HadronicActivity

  /** With the default selector the first source is read, whatever the veto
      collection holds. */
  lemma DefaultSelectorPicksFirst<V>(n: nat, veto: Option<seq<V>>)
    requires n > 0
    ensures SourceIndex(n, veto, TrivialVetex) == 0
  {
  }

  /** A selector asking for a source past the last one gets the first source,
      not the last one. */
  lemma OutOfRangeFallsBackToFirst<V>(n: nat, veto: Option<seq<V>>, selector: V -> nat)
    requires n > 0
    requires ActiveVeto(veto).Some? && selector(ActiveVeto(veto).value) >= n
    ensures SourceIndex(n, veto, selector) == 0
    ensures n > 1 ==> SourceIndex(n, veto, selector) != n - 1
  {
  }

  /** An empty veto collection switches the veto off for the event: the output
      is the one produced without a veto collection. */
  lemma EmptyVetoIsNoVeto<C, V, P>(
    cfg: Config, sources: seq<seq<C>>, selector: V -> nat, geo: VetoGeometry<V, P, C>)
    requires |sources| > 0
    ensures Produce(cfg, sources, Some([]), selector, geo) == Produce(cfg, sources, None, selector, geo)
  {
  }

  /** Without an active veto the first source is read and the composite's
      daughters are its leading candidates: `maxCand` of them when positive
      (or all when fewer), the whole collection otherwise. */
  lemma {:induction false} NoVetoTakesPrefix<C, V, P>(
    cfg: Config, sources: seq<seq<C>>, veto: Option<seq<V>>,
    selector: V -> nat, geo: VetoGeometry<V, P, C>)
    requires |sources| > 0
    requires ActiveVeto(veto).None?
    ensures var d := Produce(cfg, sources, veto, selector, geo)[0].daughters;
      && |d| == (if cfg.maxCand > 0 then Min(cfg.maxCand, |sources[0]|) else |sources[0]|)
      && d == sources[0][..|d|]
  {
    var coll := sources[0];
    var keep := Acceptor(ActiveVeto(veto), geo, cfg.vetoCone);
    assert forall i :: 0 <= i < |coll| ==> keep(coll[i]);
    FilterKeepsAll(keep, coll);
  }

  /** When every candidate of the chosen collection lies outside the cone of
      both photons of the active veto object, the veto removes nothing: the
      daughters are the collection's leading candidates up to the cap. */
  lemma {:induction false} FarVetoKeepsAll<C, V, P>(
    cfg: Config, sources: seq<seq<C>>, veto: Option<seq<V>>,
    selector: V -> nat, geo: VetoGeometry<V, P, C>)
    requires |sources| > 0
    requires ActiveVeto(veto).Some?
    requires var v := ActiveVeto(veto).value;
      var coll := sources[SourceIndex(|sources|, veto, selector)];
      forall i :: 0 <= i < |coll| ==>
        geo.deltaR(geo.leading(v), coll[i]) >= cfg.vetoCone
        && geo.deltaR(geo.subleading(v), coll[i]) >= cfg.vetoCone
    ensures var coll := sources[SourceIndex(|sources|, veto, selector)];
      var d := Produce(cfg, sources, veto, selector, geo)[0].daughters;
      d == Take(coll, Limit(cfg.maxCand, |coll|))
  {
    var coll := sources[SourceIndex(|sources|, veto, selector)];
    var keep := Acceptor(ActiveVeto(veto), geo, cfg.vetoCone);
    assert forall i :: 0 <= i < |coll| ==> keep(coll[i]);
    FilterKeepsAll(keep, coll);
  }

  /** The cap is reached whenever enough candidates pass the veto: the number
      of daughters is the smaller of the cap and the number of accepted
      candidates of the chosen collection. */
  lemma DaughterCount<C, V, P>(
    cfg: Config, sources: seq<seq<C>>, veto: Option<seq<V>>,
    selector: V -> nat, geo: VetoGeometry<V, P, C>)
    requires |sources| > 0
    ensures var coll := sources[SourceIndex(|sources|, veto, selector)];
      var accepted := Filter(Acceptor(ActiveVeto(veto), geo, cfg.vetoCone), coll);
      |Produce(cfg, sources, veto, selector, geo)[0].daughters| == Min(Limit(cfg.maxCand, |coll|), |accepted|)
  {
  }

  /** Two collections configured, no veto, no cap: the three candidates of the
      first collection become the daughters. */
  lemma FirstSourceExample()
    ensures
      var geo := VetoGeometry((v: int) => v, (v: int) => v, (p: int, c: int) => 0.0);
      Produce(DefaultConfig, [[1, 2, 3], [4, 5]], None, TrivialVetex, geo)[0].daughters == [1, 2, 3]
  {
  }

  /** A cap of one with the first candidate inside the veto cone: the first
      candidate is skipped and the cap goes to the second one. */
  lemma VetoSkipExample()
    ensures
      var geo := VetoGeometry((v: int) => v, (v: int) => -v, (p: int, c: int) => if c == 1 then 0.0 else 1.0);
      Produce(Config(1, 0.4), [[1, 2, 3]], Some([7]), TrivialVetex, geo)[0].daughters == [2]
  {
  }

  /** A selector that asks for the second of two sources makes the event read
      the second source; one that asks for a third, non-existent source makes
      it read the first. */
  lemma SelectorExample()
    ensures
      var geo := VetoGeometry((v: int) => v, (v: int) => v, (p: int, c: int) => 1.0);
      && Produce(DefaultConfig, [[1, 2], [3]], Some([5]), (v: int) => 1, geo)[0].daughters == [3]
      && Produce(DefaultConfig, [[1, 2], [3]], Some([5]), (v: int) => 2, geo)[0].daughters == [1, 2]
  {
  }
}
