# Hadronic activity producer — selection model

This project models the per-event logic of flashgg's `HadronicActivityProducer`,
a plugin of the CMSSW framework. For each event the producer:

1. picks one of its configured candidate collections. With veto mode on and a
   non-empty veto collection, the selector applied to the first veto object
   gives the index; otherwise the index is 0. An index past the last
   collection becomes 0: it is reset, not clamped to the last one;
2. walks the chosen collection in order. With an active veto object it skips
   every candidate whose angular distance to the veto object's leading or
   subleading photon is below the veto cone. Skipped candidates do not use
   up the cap;
3. appends accepted candidates as daughters of one composite candidate until
   the cap is reached. The cap is `maxCand` when positive, and otherwise the
   size of the collection;
4. emits exactly one composite candidate, even when it has no daughters.

The model is functional. Candidates, veto objects and photons are opaque type
parameters. The angular distance `reco::deltaR` is an abstract function
`deltaR: (P, C) -> real` in a `VetoGeometry` record, together with the
accessors for the two photons. The selector is a function `V -> nat`. The
event's collections are parameters of `Produce`: `sources: seq<seq<C>>` and
`veto: Option<seq<V>>`. `None` means no `veto` parameter was configured.
`Config` holds `maxCand` and `vetoCone`. `DefaultConfig` holds the
constructor's defaults: `maxCand = -1` (no cap) and `vetoCone = 0.4`.

Modules:
- `Wrappers` — `Option`.
- `Sequences` — `IsSubsequence`, `Filter`, `Take` and their lemmas.
- `HadronicActivity` — the index choice, the cap, the veto test, the scan as a
  recursive function (`Scan`), the scan as the source's loop
  (`SelectDaughters`), and `Produce`.
- `HadronicActivityProperties` — lemmas relating several calls or special
  inputs.

## Model

| member | source | states |
|---|---|---|
| HadronicActivity.ActiveVeto | MicroAOD/interface/HadronicActivityProducer.h:86-88 | A veto object steers the event iff veto mode is on and the veto collection is non-empty, and then it is the first object of that collection |
| HadronicActivity.TrivialVetex | MicroAOD/interface/HadronicActivityProducer.h:31 | The default selector sends every veto object to source 0 |
| HadronicActivity.SourceIndex | MicroAOD/interface/HadronicActivityProducer.h:85-90 | The chosen index is always a valid source index. It is 0 without an active veto object. With one, it is the selector's answer for that object when in range, and exactly 0 when the answer is past the last source |
| HadronicActivityProperties.OutOfRangeFallsBackToFirst | MicroAOD/interface/HadronicActivityProducer.h:90 | A selector result past the last source gives index 0, and with more than one source this is never the last index (no clamping) |
| HadronicActivityProperties.DefaultSelectorPicksFirst | MicroAOD/interface/HadronicActivityProducer.h:31 | With the default selector `TrivialVetex` the first source is read for every veto input |
| HadronicActivity.Accepts | MicroAOD/interface/HadronicActivityProducer.h:99-101 | A candidate is accepted iff there is no active veto object, or its distance to both the leading and the subleading photon is at least the cone radius. Its partners are `Produce`'s no-daughter-near-a-photon ensures and `FarVetoKeepsAll` |
| HadronicActivity.Limit | MicroAOD/interface/HadronicActivityProducer.h:96 | The cap is `maxCand` when positive, otherwise the collection size |
| HadronicActivity.Scan | MicroAOD/interface/HadronicActivityProducer.h:97-103 | The scan yields at most `count` candidates, all accepted, as an order-preserving subsequence of the collection |
| HadronicActivity.ScanIsTakeFilter | MicroAOD/interface/HadronicActivityProducer.h:96-102 | Skipped candidates do not consume the cap: the scan equals the first `count` elements of the collection filtered by the acceptance test |
| HadronicActivity.SelectDaughters | MicroAOD/interface/HadronicActivityProducer.h:96-103 | The index-and-count loop of the source computes the scan, that is take(limit, filter(accepted, collection)) |
| HadronicActivity.Produce | MicroAOD/interface/HadronicActivityProducer.h:80-103 | Exactly one composite is produced. Its daughters are an order-preserving subsequence of the chosen source and equal take(limit, filter(accepted, source)). With `maxCand > 0` there are at most `maxCand` daughters. With an active veto object no daughter is near its leading or subleading photon |
| HadronicActivityProperties.EmptyVetoIsNoVeto | MicroAOD/interface/HadronicActivityProducer.h:86-101 | An empty veto collection gives the same output as running without a veto collection |
| HadronicActivityProperties.NoVetoTakesPrefix | MicroAOD/interface/HadronicActivityProducer.h:85-103 | Without an active veto object the daughters are the prefix of the first source, of length min(maxCand, size) when `maxCand > 0` and of length size otherwise |
| HadronicActivityProperties.FarVetoKeepsAll | MicroAOD/interface/HadronicActivityProducer.h:100-102 | When every candidate is outside the cone of both photons, the daughters are the capped prefix of the chosen source |
| HadronicActivityProperties.DaughterCount | MicroAOD/interface/HadronicActivityProducer.h:96-102 | The number of daughters is the smaller of the cap and the number of accepted candidates |
| HadronicActivityProperties.FirstSourceExample | MicroAOD/interface/HadronicActivityProducer.h:85-103 | Sources [[1,2,3],[4,5]] with no veto and default configuration give daughters [1,2,3] |
| HadronicActivityProperties.SelectorExample | MicroAOD/interface/HadronicActivityProducer.h:85-94 | With two sources, a selector answering 1 makes the event read the second source, and one answering 2 makes it read the first |
| HadronicActivityProperties.VetoSkipExample | MicroAOD/interface/HadronicActivityProducer.h:96-102 | With cap 1 and the first candidate vetoed, the daughter is the second candidate |

## Left out

- Parameter parsing (`maxCand`, `veto`, `vetocone`, `src` as a single tag or a list), token registration, and `getByToken`/`put` event access (lines 51-72, 87, 93, 108). These are host-framework plumbing. The collections come in as parameters and the output is returned.
- A missing input collection. Dereferencing a missing product at line 88 (`veto->size()`) or line 94 (`*src`) throws the framework's exception, and the event gets no output. The model has no error path for it: both collections are given as present.
- An empty list of sources. `srcTokens_.size()-1` underflows at line 90 and the index is out of bounds. `Produce` and `SourceIndex` require at least one source.
- The floating-point computation of `reco::deltaR`. It is an external library, so it is the abstract `deltaR`. The strict `<` comparison with the cone is kept. Reals stand in for `double`.
- `AddFourMomenta::set` (lines 105-106), the external four-momentum sum. `Composite` records only its daughters.
- HadronicActivity.Limit: the conversion of `collection.size()` (a `size_t`) to `int` at line 96 is not modelled. It would only matter for collections larger than 2^31 - 1.
- The `StreamID`/const concurrency context of `edm::global::EDProducer`. Each call is a pure function.
- Idempotence across runs holds by construction, because `Produce` is a function. No lemma states it.
