/** The registry of loaded models and the choice of a model to serve with. */
module ModelRegistry {
  import opened Common
  import opened ModelFamily

  datatype LoadState = Loaded | Loading | Unloading | NotLoaded | LoadFailed

  datatype ModelInfo = ModelInfo(
    name: string, endpoint: string, state: LoadState, lastUsed: int, refCount: nat,
    family: string, quantization: string)

  type Models = map<string, ModelInfo>

  /** One more request uses the model. */
  function Used(models: Models, name: string, now: int): Models {
    if name !in models then models
    else models[name := models[name].(lastUsed := now, refCount := models[name].refCount + 1)]
  }

  /** The record has one reference more and was used now; all else stays. */
  ghost predicate MarkedUsed(before: Models, after: Models, name: string, now: int) {
    && name in before && after.Keys == before.Keys
    && after[name].lastUsed == now && after[name].refCount == before[name].refCount + 1
    && after[name].name == before[name].name && after[name].endpoint == before[name].endpoint
    && after[name].state == before[name].state && after[name].family == before[name].family
    && after[name].quantization == before[name].quantization
    && forall n | n in before && n != name :: after[n] == before[n]
  }

  lemma UsedMarks(models: Models, name: string, now: int)
    ensures if name in models then MarkedUsed(models, Used(models, name, now), name, now)
            else Used(models, name, now) == models
  {
  }

  /** What is known of a peer after it reports these models, later reports winning. */
  function Reported(known: Models, models: seq<ModelInfo>): Models {
    if models == [] then known
    else Reported(known, models[..|models| - 1])[models[|models| - 1].name := models[|models| - 1]]
  }

  /** The latest report `i` of a name counts; a name not reported (-1) keeps what was known of it. */
  lemma {:induction false} ReportedIs(known: Models, models: seq<ModelInfo>, name: string) returns (i: int)
    ensures -1 <= i < |models| && forall k | i < k < |models| :: models[k].name != name
    ensures i >= 0 ==> models[i].name == name && name in Reported(known, models)
                       && Reported(known, models)[name] == models[i]
    ensures i < 0 ==> (name in Reported(known, models) <==> name in known)
    ensures i < 0 && name in known ==> Reported(known, models)[name] == known[name]
    decreases |models|
  {
    var n := |models| - 1;
    i := n;
    if models != [] && models[n].name != name {
      i := ReportedIs(known, models[..n], name);
    }
  }

  predicate Serves(models: Models, name: string) {
    name in models && models[name].state == Loaded
  }

  /** A loaded model of the requested model's (non-empty) family. */
  predicate Substitutes(models: Models, requested: string, name: string) {
    Family(requested) != "" && Serves(models, name) && models[name].family == Family(requested)
  }

  // ---------------------------------------------------------------- the scan for a substitute

  /** The scan drops `best` for `info`: quantized over unquantized, or later used. */
  predicate Replaces(info: ModelInfo, best: ModelInfo) {
    || (info.quantization != "" && best.quantization == "")
    || info.lastUsed > best.lastUsed
  }

  /** What is left after visiting the candidates in this order. */
  function Scan(order: seq<ModelInfo>): Option<ModelInfo> {
    if order == [] then None
    else
      var best, info := Scan(order[..|order| - 1]), order[|order| - 1];
      if best.None? || Replaces(info, best.value) then Some(info) else best
  }

  ghost predicate Visits(order: seq<ModelInfo>, candidates: set<ModelInfo>) {
    && (forall i, k | 0 <= i < k < |order| :: order[i] != order[k])
    && (forall x :: x in order <==> x in candidates)
  }

  function Candidates(models: Models, requested: string): set<ModelInfo> {
    set n | n in models && Substitutes(models, requested, n) :: models[n]
  }

  /** `w` would replace every other candidate, and none would replace it. */
  ghost predicate Dominates(w: ModelInfo, candidates: set<ModelInfo>) {
    w in candidates && forall x | x in candidates && x != w :: Replaces(w, x) && !Replaces(x, w)
  }

  /** In every comparison: `w` was used later and is not the one unquantized of the two, or it is the
      one quantized of the two and was used no earlier. */
  lemma DominatesIff(w: ModelInfo, candidates: set<ModelInfo>)
    ensures Dominates(w, candidates) <==>
            w in candidates && forall x | x in candidates && x != w ::
              || (w.lastUsed > x.lastUsed && (w.quantization != "" || x.quantization == ""))
              || (w.lastUsed >= x.lastUsed && w.quantization != "" && x.quantization == "")
  {
  }

  /** Of two candidates the second one is found when it was used later, or alone is quantized. */
  lemma ScanPair(a: ModelInfo, b: ModelInfo)
    ensures var later, better := b.lastUsed > a.lastUsed, a.quantization == "" && b.quantization != "";
            Scan([a, b]) == Some(if later || better then b else a)
  {
    ScanAppend([], a);
    ScanAppend([a], b);
    assert [] + [a] == [a] && [a] + [b] == [a, b] && Scan([]) == None;
  }

  lemma ScanAppend(order: seq<ModelInfo>, info: ModelInfo)
    ensures Scan(order + [info])
            == if Scan(order).None? || Replaces(info, Scan(order).value) then Some(info) else Scan(order)
  {
    assert (order + [info])[..|order + [info]| - 1] == order;
  }

  lemma {:induction false} ScanFrom(order: seq<ModelInfo>, rest: seq<ModelInfo>)
    requires Scan(order).Some?
    ensures Scan(order + rest).Some? && (Scan(order + rest) == Scan(order) || Scan(order + rest).value in rest)
    decreases |rest|
  {
    if rest == [] {
      assert order + rest == order;
    } else {
      var n := |rest| - 1;
      ScanFrom(order, rest[..n]);
      ScanAppend(order + rest[..n], rest[n]);
      assert order + rest == order + rest[..n] + [rest[n]];
    }
  }

  lemma {:induction false} DominantWins(order: seq<ModelInfo>, w: ModelInfo, candidates: set<ModelInfo>)
    requires Dominates(w, candidates)
    requires (forall i, k | 0 <= i < k < |order| :: order[i] != order[k]) && forall x | x in order :: x in candidates
    ensures order != [] ==> Scan(order).Some? && Scan(order).value in order
    ensures w in order ==> Scan(order) == Some(w)
    decreases |order|
  {
    if order != [] {
      DominantWins(order[..|order| - 1], w, candidates);
    }
  }

  lemma {:induction false} OrderOf(candidates: set<ModelInfo>) returns (order: seq<ModelInfo>)
    ensures Visits(order, candidates)
    decreases candidates
  {
    if candidates == {} {
      order := [];
    } else {
      var x :| x in candidates;
      var rest := OrderOf(candidates - {x});
      order := rest + [x];
    }
  }

  ghost predicate OrderIndependent(candidates: set<ModelInfo>) {
    forall o1, o2 | Visits(o1, candidates) && Visits(o2, candidates) :: Scan(o1) == Scan(o2)
  }

  /** Visited last, a candidate must not replace the winner of every order. */
  lemma LastLoses(candidates: set<ModelInfo>, r: ModelInfo, x: ModelInfo)
    requires r in candidates && x in candidates && x != r
    requires forall o | Visits(o, candidates) :: Scan(o) == Some(r)
    ensures !Replaces(x, r)
  {
    hide Scan, Replaces;
    var others := OrderOf(candidates - {x});
    assert Visits(others + [x], candidates);
    ScanAppend(others, x);
    assert r in others;
    ScanIn(others);
  }

  lemma VisitsTwoFirst(candidates: set<ModelInfo>, x: ModelInfo, r: ModelInfo, rest: seq<ModelInfo>)
    requires r in candidates && x in candidates && x != r && Visits(rest, candidates - {x, r})
    ensures Visits([x, r] + rest, candidates) && r !in rest
  {
    var o := [x, r] + rest;
    assert o[0] == x && o[1] == r && forall i | 2 <= i < |o| :: o[i] == rest[i - 2];
    forall y | y in candidates ensures y in o {
      if y != x && y != r {
        assert y in rest;
      }
    }
  }

  /** Visited second, the winner of every order must replace the candidate before it. */
  lemma SecondWins(candidates: set<ModelInfo>, r: ModelInfo, x: ModelInfo)
    requires r in candidates && x in candidates && x != r
    requires forall o | Visits(o, candidates) :: Scan(o) == Some(r)
    ensures Replaces(r, x)
  {
    hide Scan, Replaces, Visits;
    var rest := OrderOf(candidates - {x, r});
    VisitsTwoFirst(candidates, x, r, rest);
    ScanAppend([], x);
    ScanAppend([x], r);
    assert [] + [x] == [x] && [x] + [r] == [x, r];
    assert Scan([x]) == Some(x) by {
      ScanIn([x]);
    }
    ScanFrom([x, r], rest);
  }

  lemma {:induction false} ScanIn(order: seq<ModelInfo>)
    requires order != []
    ensures Scan(order).Some? && Scan(order).value in order
    decreases |order|
  {
    if |order| > 1 {
      ScanIn(order[..|order| - 1]);
    }
  }

  lemma ScanInVisited(order: seq<ModelInfo>, candidates: set<ModelInfo>)
    requires Visits(order, candidates) && candidates != {}
    ensures Scan(order).Some? && Scan(order).value in candidates
  {
    var c :| c in candidates;
    assert c in order;
    ScanIn(order);
  }

  lemma IndependentDominated(candidates: set<ModelInfo>)
    requires candidates != {} && OrderIndependent(candidates)
    ensures exists w :: Dominates(w, candidates)
  {
    hide Visits, Scan, Replaces;
    var o0 := OrderOf(candidates);
    ScanInVisited(o0, candidates);
    var r := Scan(o0).value;
    forall x | x in candidates && x != r ensures Replaces(r, x) && !Replaces(x, r) {
      LastLoses(candidates, r, x);
      SecondWins(candidates, r, x);
    }
    assert Dominates(r, candidates);
  }

  /** Go visits a map in any order.  The substitute found is the same in every order exactly when one
      candidate would replace every other and be replaced by none. */
  lemma OrderIndependentIff(candidates: set<ModelInfo>)
    requires candidates != {}
    ensures OrderIndependent(candidates) <==> exists w :: Dominates(w, candidates)
  {
    if exists w :: Dominates(w, candidates) {
      var w :| Dominates(w, candidates);
      forall o | Visits(o, candidates) ensures Scan(o) == Some(w) {
        DominantWins(o, w, candidates);
      }
    } else if OrderIndependent(candidates) {
      IndependentDominated(candidates);
    }
  }

  /** Unquantized used at 10, quantized used earlier, unquantized used in between: visited in this order
      the last one is found, although the first is as unquantized and later used. */
  lemma OrderMatters(a: ModelInfo, b: ModelInfo, c: ModelInfo)
    requires a.quantization == c.quantization == "" && b.quantization != ""
    requires b.lastUsed < c.lastUsed < a.lastUsed
    ensures Scan([a, b, c]) == Some(c) && Scan([b, c, a]) == Some(a)
    ensures Visits([a, b, c], {a, b, c}) && Visits([b, c, a], {a, b, c}) && !OrderIndependent({a, b, c})
  {
    hide Scan;
    ScanThree(a, b, c);
    ScanThree(b, c, a);
    assert Visits([a, b, c], {a, b, c}) && Visits([b, c, a], {a, b, c});
  }

  lemma ScanThree(a: ModelInfo, b: ModelInfo, c: ModelInfo)
    ensures var best := if Replaces(b, a) then b else a;
            Scan([a, b, c]) == Some(if Replaces(c, best) then c else best)
  {
    ScanNothing();
    ScanAppend([], a);
    ScanAppend([a], b);
    ScanAppend([a, b], c);
    hide Scan, Replaces;
    assert [] + [a] == [a] && [a] + [b] == [a, b] && [a, b] + [c] == [a, b, c];
  }

  /** A loaded record of this name, last used then. */
  function LoadedAs(name: string, quantization: string, lastUsed: int): ModelInfo {
    ModelInfo(name, "", Loaded, lastUsed, 0, Family(name), quantization)
  }

  /** A registry of three models, used at 10, 5 and 7. */
  function ThreeModels(x: string, y: string, z: string, quantization: string): Models {
    map[x := LoadedAs(x, "", 10), y := LoadedAs(y, quantization, 5), z := LoadedAs(z, "", 7)]
  }

  lemma ThreeCandidates(x: string, y: string, z: string, quantization: string, requested: string)
    requires x != y && y != z && x != z && Family(requested) != ""
    requires Family(x) == Family(y) == Family(z) == Family(requested)
    ensures var m := ThreeModels(x, y, z, quantization);
            && Named(m) && OfTheirFamily(m) && m.Keys == {x, y, z}
            && Candidates(m, requested) == {m[x], m[y], m[z]}
  {
    hide Family;
    var m := ThreeModels(x, y, z, quantization);
    assert m.Keys == {x, y, z};
    assert Substitutes(m, requested, x) && Substitutes(m, requested, y) && Substitutes(m, requested, z);
  }

  /** Whenever a registry holds, of the requested family, a quantized model and two unquantized ones,
      the former used first, the substitute found depends on the visiting order. */
  lemma OrderMattersInRegistry(x: string, y: string, z: string, quantization: string, requested: string)
    requires x != y && y != z && x != z && Family(requested) != "" && quantization != ""
    requires Family(x) == Family(y) == Family(z) == Family(requested)
    ensures var m := ThreeModels(x, y, z, quantization);
            Named(m) && OfTheirFamily(m) && !OrderIndependent(Candidates(m, requested))
  {
    hide Family, OrderIndependent, Scan, Visits, Candidates;
    ThreeCandidates(x, y, z, quantization, requested);
    var m := ThreeModels(x, y, z, quantization);
    OrderMatters(m[x], m[y], m[z]);
  }

  /** Names that make such a registry, with the quantization each of them has. */
  lemma SuchNames()
    ensures Family("phi2") == Family("phi2-q4_0") == Family("phi2x") == Family("phi2:latest") == "phi2"
    ensures IsQuantization("phi2", "") && IsQuantization("phi2-q4_0", "q4_0") && IsQuantization("phi2x", "")
  {
    hide Family, IsQuantization;
    PhiFamily("phi2");
    PhiFamily("phi2-q4_0");
    PhiFamily("phi2x");
    PhiFamily("phi2:latest");
    Unquantized("phi2");
    Unquantized("phi2x");
    PhiQuantized();
  }

  lemma NoOtherPhi2(k: nat)
    requires k < 13
    ensures |FAMILIES[k]| > 3 && (FAMILIES[k][0] != 'p' || FAMILIES[k][3] != '2')
  {
  }

  lemma PhiFamily(name: string)
    requires "phi2" <= name
    ensures Family(name) == "phi2"
  {
    assert FAMILIES[13] == "phi2";
    assert name[0] == "phi2"[0] == 'p' && name[3] == "phi2"[3] == '2';
    hide FAMILIES;
    forall k | 0 <= k < 13 ensures !(FAMILIES[k] <= name) {
      NoOtherPhi2(k);
    }
    FirstFamilyIs(name, 13);
  }

  lemma PatternStart(k: nat)
    requires k < |QUANTIZATIONS|
    ensures QUANTIZATIONS[k] != "" && QUANTIZATIONS[k][0] in {'q', 'f', 'b'}
  {
  }

  lemma Unquantized(name: string)
    requires forall j | 0 <= j < |name| :: name[j] !in {'q', 'f', 'b'}
    ensures IsQuantization(name, "")
  {
    hide Occurs;
    forall k, i: nat | 0 <= k < |QUANTIZATIONS| ensures !Occurs(name, QUANTIZATIONS[k], i) {
      PatternStart(k);
      OccursFirst(name, QUANTIZATIONS[k], i);
    }
  }

  lemma PhiQuantized()
    ensures IsQuantization("phi2-q4_0", "q4_0")
  {
    var name := "phi2-q4_0";
    assert QUANTIZATIONS[0] == "q4_k_m" && QUANTIZATIONS[1] == "q4_0";
    forall i: nat ensures !Occurs(name, "q4_k_m", i) {
      OccursFirst(name, "q4_k_m", i);
    }
    assert name[5..9] == "q4_0";
    OccursIsSlice(name, "q4_0", 5);
  }

  /** What holds in every order: when all candidates are alike in being quantized or not, the one found
      was used no earlier than any other; when all were used at the same time, a quantized one is found
      if there is one. */
  ghost predicate Preferred(candidates: set<ModelInfo>, best: ModelInfo) {
    && ((forall x | x in candidates :: (x.quantization == "") == (best.quantization == "")) ==>
          forall x | x in candidates :: x.lastUsed <= best.lastUsed)
    && ((forall x | x in candidates :: x.lastUsed == best.lastUsed) ==>
          forall x | x in candidates && x.quantization != "" :: best.quantization != "")
  }

  lemma {:induction false} ScanLatest(order: seq<ModelInfo>)
    requires order != []
    requires forall i | 0 <= i < |order| :: (order[i].quantization == "") == (order[0].quantization == "")
    ensures Scan(order).Some? && Scan(order).value in order
    ensures forall i | 0 <= i < |order| :: order[i].lastUsed <= Scan(order).value.lastUsed
    decreases |order|
  {
    ScanIn(order);
    if |order| > 1 {
      ScanLatest(order[..|order| - 1]);
    }
  }

  lemma {:induction false} ScanQuantized(order: seq<ModelInfo>)
    requires order != [] && forall i | 0 <= i < |order| :: order[i].lastUsed == order[0].lastUsed
    ensures Scan(order).Some? && Scan(order).value in order
    ensures forall i | 0 <= i < |order| && order[i].quantization != "" :: Scan(order).value.quantization != ""
    decreases |order|
  {
    ScanIn(order);
    if |order| > 1 {
      ScanQuantized(order[..|order| - 1]);
    }
  }

  lemma VisitPrefers(order: seq<ModelInfo>, candidates: set<ModelInfo>)
    requires Visits(order, candidates)
    ensures Scan(order).None? <==> candidates == {}
    ensures Scan(order).Some? ==> Scan(order).value in candidates && Preferred(candidates, Scan(order).value)
  {
    hide Scan, Replaces;
    if order == [] {
      ScanNothing();
      assert forall x | x in candidates :: x in order;
    } else {
      assert order[0] in candidates;
      ScanInVisited(order, candidates);
      var best := Scan(order).value;
      assert best in order;
      assert forall i | 0 <= i < |order| :: order[i] in candidates;
      if forall x | x in candidates :: (x.quantization == "") == (best.quantization == "") {
        ScanLatest(order);
      }
      if forall x | x in candidates :: x.lastUsed == best.lastUsed {
        ScanQuantized(order);
      }
    }
  }

  lemma ScanNothing()
    ensures Scan([]) == None
  {
  }

  /** The candidates visited so far, in the order of the visits. */
  ghost predicate Visiting(order: seq<ModelInfo>, models: Models, requested: string, pending: set<string>) {
    && (forall i, k | 0 <= i < k < |order| :: order[i] != order[k])
    && (forall x | x in order :: Substitutes(models, requested, x.name) && models[x.name] == x && x.name !in pending)
    && (forall n | n in models && n !in pending && Substitutes(models, requested, n) :: models[n] in order)
  }

  lemma VisitOther(order: seq<ModelInfo>, models: Models, requested: string, pending: set<string>, n: string)
    requires n in pending && n in models && !Substitutes(models, requested, n)
    requires Visiting(order, models, requested, pending)
    ensures Visiting(order, models, requested, pending - {n})
  {
    hide Family;
  }

  lemma VisitCandidate(order: seq<ModelInfo>, models: Models, requested: string, pending: set<string>, n: string)
    requires n in pending && Named(models) && Substitutes(models, requested, n)
    requires Visiting(order, models, requested, pending)
    ensures Visiting(order + [models[n]], models, requested, pending - {n})
  {
    hide Family;
    assert models[n] !in order;
  }

  lemma StartVisiting(models: Models, requested: string)
    ensures Visiting([], models, requested, models.Keys)
  {
  }

  lemma NoneWithoutFamily(models: Models, requested: string)
    requires Family(requested) == ""
    ensures Visits([], Candidates(models, requested)) && Scan([]) == None
  {
    hide Family;
  }

  lemma SubstitutesAreCandidates(models: Models, requested: string)
    ensures forall n: string | Substitutes(models, requested, n) :: models[n] in Candidates(models, requested)
  {
    hide Family;
  }

  lemma FoundSubstitutes(models: Models, requested: string, best: Option<ModelInfo>)
    requires Named(models)
    requires best.None? <==> Candidates(models, requested) == {}
    requires best.Some? ==> best.value in Candidates(models, requested)
    ensures best.Some? ==> Substitutes(models, requested, best.value.name) && best.value == models[best.value.name]
    ensures best.None? ==> forall n: string :: !Substitutes(models, requested, n)
  {
    hide Family;
    SubstitutesAreCandidates(models, requested);
  }

  lemma AllVisited(order: seq<ModelInfo>, models: Models, requested: string)
    requires Visiting(order, models, requested, {})
    ensures Visits(order, Candidates(models, requested))
  {
    hide Family;
    forall x | x in Candidates(models, requested) ensures x in order {
    }
    forall x | x in order ensures x in Candidates(models, requested) {
      assert Substitutes(models, requested, x.name);
    }
  }

  predicate Named(models: Models) {
    forall n | n in models :: models[n].name == n
  }

  predicate OfTheirFamily(models: Models) {
    forall n | n in models :: models[n].family == Family(n)
  }

  class Registry {
    const ollamaURL: string
    var localModels: Models
    var peerModels: map<string, Models>
    var totalLoads: nat
    var totalUnloads: nat

    /** Records sit under their own name; local ones carry the family of that name. */
    ghost predicate Valid()
      reads this
    {
      && Named(localModels) && OfTheirFamily(localModels)
      && forall id | id in peerModels :: Named(peerModels[id])
    }

    constructor (ollamaURL: string)
      ensures Valid() && localModels == map[] && peerModels == map[] && this.ollamaURL == ollamaURL
    {
      this.ollamaURL := ollamaURL;
      localModels, peerModels, totalLoads, totalUnloads := map[], map[], 0, 0;
    }

    method RegisterLocalModel(name: string, endpoint: string, now: int)
      requires Valid()
      modifies this
      ensures Valid() && peerModels == old(peerModels)
      ensures Serves(localModels, name) && localModels[name].refCount == 0
      ensures localModels[name].endpoint == endpoint && localModels[name].lastUsed == now
      ensures IsQuantization(name, localModels[name].quantization)
      ensures localModels == old(localModels)[name := localModels[name]]
      ensures totalLoads == old(totalLoads) + if name in old(localModels) then 0 else 1
    {
      hide Family;
      var family := ExtractModelFamily(name);
      var quantization := ExtractQuantization(name);
      if name !in localModels {
        totalLoads := totalLoads + 1;
      }
      localModels := localModels[name := ModelInfo(name, endpoint, Loaded, now, 0, family, quantization)];
    }

    method UnregisterLocalModel(name: string)
      requires Valid()
      modifies this
      ensures Valid() && peerModels == old(peerModels) && localModels == old(localModels) - {name}
      ensures totalUnloads == old(totalUnloads) + if name in old(localModels) then 1 else 0
    {
      hide Family;
      if name in localModels {
        totalUnloads := totalUnloads + 1;
        localModels := localModels - {name};
      }
    }

    /** What a peer reports is taken as it comes, its family included. */
    method RegisterPeerModels(id: string, models: seq<ModelInfo>)
      requires Valid()
      modifies this
      ensures Valid() && localModels == old(localModels)
      ensures var known := if id in old(peerModels) then old(peerModels)[id] else map[];
              peerModels == old(peerModels)[id := Reported(known, models)]
    {
      hide Family;
      var known: Models := if id in peerModels then peerModels[id] else map[];
      ghost var before := known;
      for i := 0 to |models|
        invariant Named(known) && known == Reported(before, models[..i])
      {
        assert models[..i + 1][..i] == models[..i];
        known := known[models[i].name := models[i]];
      }
      assert models[..|models|] == models;
      peerModels := peerModels[id := known];
    }

    method RemovePeerModels(id: string)
      requires Valid()
      modifies this
      ensures Valid() && localModels == old(localModels) && peerModels == old(peerModels) - {id}
    {
      hide Family;
      peerModels := peerModels - {id};
    }

    method MarkModelUsed(name: string, isLocal: bool, id: string, now: int)
      requires Valid()
      modifies this
      ensures Valid()
      ensures localModels == if isLocal then Used(old(localModels), name, now) else old(localModels)
      ensures peerModels == if isLocal || id !in old(peerModels) then old(peerModels)
                            else old(peerModels)[id := Used(old(peerModels)[id], name, now)]
      ensures isLocal && name in old(localModels) ==> MarkedUsed(old(localModels), localModels, name, now)
      ensures !isLocal && id in old(peerModels) && name in old(peerModels)[id] ==>
                MarkedUsed(old(peerModels)[id], peerModels[id], name, now)
    {
      hide Family;
      if isLocal {
        if name in localModels {
          var info := localModels[name];
          localModels := localModels[name := info.(lastUsed := now, refCount := info.refCount + 1)];
        }
      } else if id in peerModels {
        UsedMarks(peerModels[id], name, now);
        peerModels := peerModels[id := Used(peerModels[id], name, now)];
      }
    }

    /** Some loaded local model of the requested family, if there is one; the map is visited in any order. */
    method FindCompatibleLocalModel(requested: string) returns (best: Option<ModelInfo>)
      requires Valid()
      ensures best.Some? ==> Substitutes(localModels, requested, best.value.name)
                             && best.value == localModels[best.value.name]
                             && Preferred(Candidates(localModels, requested), best.value)
      ensures best.None? ==> forall n: string :: !Substitutes(localModels, requested, n)
      ensures exists order :: Visits(order, Candidates(localModels, requested)) && best == Scan(order)
    {
      hide Family, Preferred, Visits, Visiting, Candidates;
      best := None;
      ghost var order: seq<ModelInfo> := [];
      var family := ExtractModelFamily(requested);
      StartVisiting(localModels, requested);
      if family == "" {
        NoneWithoutFamily(localModels, requested);
        return;
      }
      var pending := localModels.Keys;
      while pending != {}
        invariant pending <= localModels.Keys
        invariant Visiting(order, localModels, requested, pending) && best == Scan(order)
        decreases pending
      {
        var n :| n in pending;
        ghost var before := pending;
        pending := pending - {n};
        var info := localModels[n];
        if info.state != Loaded {
          VisitOther(order, localModels, requested, before, n);
          continue;
        }
        if info.family == family {
          VisitCandidate(order, localModels, requested, before, n);
          ScanAppend(order, info);
          order := order + [info];
          if best.None? {
            best := Some(info);
          } else if info.quantization != "" && best.value.quantization == "" {
            best := Some(info);
          } else if info.lastUsed > best.value.lastUsed {
            best := Some(info);
          }
        } else {
          VisitOther(order, localModels, requested, before, n);
        }
      }
      AllVisited(order, localModels, requested);
      VisitPrefers(order, Candidates(localModels, requested));
      FoundSubstitutes(localModels, requested, best);
    }

    /** The first peer come across that has the model loaded; "" if none. */
    method FindPeerWithLoadedModel(name: string) returns (id: string, endpoint: string)
      requires Valid()
      ensures id != "" ==> id in peerModels && Serves(peerModels[id], name) && endpoint == peerModels[id][name].endpoint
      ensures id == "" && "" !in peerModels ==> forall p | p in peerModels :: !Serves(peerModels[p], name)
    {
      hide Family;
      var pending := peerModels.Keys;
      while pending != {}
        invariant pending <= peerModels.Keys
        invariant forall p | p in peerModels && p !in pending :: !Serves(peerModels[p], name)
        decreases pending
      {
        id :| id in pending;
        pending := pending - {id};
        if name in peerModels[id] && peerModels[id][name].state == Loaded {
          return id, peerModels[id][name].endpoint;
        }
      }
      return "", "";
    }

    method FindPeerWithCompatibleModel(requested: string) returns (id: string, info: Option<ModelInfo>)
      requires Valid()
      ensures id != "" ==> info.Some? && id in peerModels && Substitutes(peerModels[id], requested, info.value.name)
                           && info.value == peerModels[id][info.value.name]
      ensures id == "" && "" !in peerModels ==>
                forall p, n: string | p in peerModels :: !Substitutes(peerModels[p], requested, n)
    {
      hide Family;
      var family := ExtractModelFamily(requested);
      if family == "" {
        return "", None;
      }
      var pending := peerModels.Keys;
      while pending != {}
        invariant pending <= peerModels.Keys
        invariant forall p, n: string | p in peerModels && p !in pending :: !Substitutes(peerModels[p], requested, n)
        decreases pending
      {
        id :| id in pending;
        pending := pending - {id};
        var names := peerModels[id].Keys;
        while names != {}
          invariant names <= peerModels[id].Keys
          invariant forall n | n in peerModels[id] && n !in names :: !Substitutes(peerModels[id], requested, n)
          decreases names
        {
          var n :| n in names;
          names := names - {n};
          var candidate := peerModels[id][n];
          if candidate.state == Loaded && candidate.family == family {
            return id, Some(candidate);
          }
        }
      }
      return "", None;
    }

    /** Exact local model, local substitute, exact model on a peer, substitute on a peer, else the
        model as requested.  A local substitute has the requested model's family. */
    method SelectBestModel(requested: string, now: int) returns (name: string, endpoint: string, substitute: bool)
      requires Valid()
      modifies this
      ensures Valid()
      ensures old(requested in localModels && localModels[requested].state == Loaded) ==>
                && name == requested && endpoint == ollamaURL && !substitute
                && localModels == Used(old(localModels), requested, now) && peerModels == old(peerModels)
      ensures !old(Serves(localModels, requested))
              && (exists n: string :: old(Substitutes(localModels, requested, n))) ==>
                && substitute && old(Substitutes(localModels, requested, name)) && Family(name) == Family(requested)
                && old(localModels)[name] in Candidates(old(localModels), requested)
                && Preferred(Candidates(old(localModels), requested), old(localModels)[name])
                && (exists order :: Visits(order, Candidates(old(localModels), requested))
                                    && Scan(order) == Some(old(localModels)[name]))
                && old(localModels)[name].state == Loaded && endpoint == old(localModels)[name].endpoint
                && localModels == Used(old(localModels), name, now) && peerModels == old(peerModels)
      ensures !old(Serves(localModels, requested))
              && (forall n: string :: !old(Substitutes(localModels, requested, n))) ==>
                && localModels == old(localModels)
                && (|| (&& peerModels == old(peerModels) && name == requested && endpoint == ollamaURL && !substitute
                        && ("" !in old(peerModels) ==>
                              forall p, n: string | p in old(peerModels) ::
                                !Serves(old(peerModels)[p], requested)
                                && !Substitutes(old(peerModels)[p], requested, n)))
                    || OnPeer(old(peerModels), peerModels, requested, name, endpoint, substitute, now))
    {
      hide Family;
      if requested in localModels && localModels[requested].state == Loaded {
        MarkModelUsed(requested, true, "", now);
        return requested, ollamaURL, false;
      }
      var compatible := FindCompatibleLocalModel(requested);
      if compatible.Some? {
        MarkModelUsed(compatible.value.name, true, "", now);
        return compatible.value.name, compatible.value.endpoint, true;
      }
      var id, peerEndpoint := FindPeerWithLoadedModel(requested);
      if id != "" {
        MarkModelUsed(requested, false, id, now);
        assert ServedBy(old(peerModels), peerModels, id, requested, peerEndpoint, now);
        return requested, peerEndpoint, false;
      }
      var peer, info := FindPeerWithCompatibleModel(requested);
      if peer != "" {
        MarkModelUsed(info.value.name, false, peer, now);
        assert ServedBy(old(peerModels), peerModels, peer, info.value.name, info.value.endpoint, now);
        return info.value.name, info.value.endpoint, true;
      }
      return requested, ollamaURL, false;
    }
  }

  ghost predicate ServedBy(before: map<string, Models>, after: map<string, Models>, id: string, name: string,
                           endpoint: string, now: int)
  {
    && id in before && Serves(before[id], name) && endpoint == before[id][name].endpoint
    && after == before[id := Used(before[id], name, now)]
  }

  /** Some peer serves: the model itself, or, when no peer has it loaded, a substitute with the requested
      family by that peer's account. */
  ghost predicate OnPeer(before: map<string, Models>, after: map<string, Models>, requested: string, name: string,
                         endpoint: string, substitute: bool, now: int)
  {
    exists id: string ::
      && ServedBy(before, after, id, name, endpoint, now)
      && if substitute
         then Substitutes(before[id], requested, name)
              && ("" !in before ==> forall p | p in before :: !Serves(before[p], requested))
         else name == requested
  }

  // ---------------------------------------------------------------- one choice after another

  lemma UsedKeepsRoles(models: Models, name: string, now: int, requested: string)
    ensures Serves(Used(models, name, now), requested) <==> Serves(models, requested)
    ensures forall n: string ::
              Substitutes(Used(models, name, now), requested, n) <==> Substitutes(models, requested, n)
  {
    hide Family;
  }

  lemma SameFamilySubstitutes(models: Models, first: string, second: string)
    requires Family(first) == Family(second) != "" && OfTheirFamily(models)
    ensures forall n: string :: Substitutes(models, first, n) <==> Substitutes(models, second, n)
    ensures Serves(models, first) ==> Substitutes(models, second, first)
  {
    hide Family;
  }

  /** What was used last is found again: among unquantized candidates the only one used at `now`. */
  lemma LastUsedPreferred(before: Models, last: string, now: int, requested: string, name: string)
    requires Substitutes(before, requested, last) && Named(before)
    requires forall n: string | Substitutes(before, requested, n) ::
               before[n].quantization == "" && before[n].lastUsed < now
    requires var after := Used(before, last, now);
             Substitutes(after, requested, name) && Preferred(Candidates(after, requested), after[name])
    ensures name == last
  {
    hide Family, Used;
    var after := Used(before, last, now);
    UsedMarks(before, last, now);
    UsedKeepsRoles(before, last, now, requested);
    SubstitutesAreCandidates(after, requested);
    var best, mine := after[name], after[last];
    assert mine in Candidates(after, requested) && mine.lastUsed == now;
    forall x | x in Candidates(after, requested)
      ensures (x.quantization == "") == (best.quantization == "")
    {
      var n :| Substitutes(after, requested, n) && after[n] == x;
      assert Substitutes(before, requested, n) && Substitutes(before, requested, name);
    }
    assert mine.lastUsed <= best.lastUsed;
  }

  /** Two requests of one family, the second one not loaded under its own name, the candidates all
      unquantized and last used before the first request: the second request is answered with the model
      the first one used. */
  method SelectAgain(r: Registry, first: string, now: int, second: string, later: int)
    returns (name: string, again: string)
    requires r.Valid() && Family(first) == Family(second) != "" && !Serves(r.localModels, second)
    requires exists n: string :: Substitutes(r.localModels, second, n)
    requires forall n: string | Substitutes(r.localModels, second, n) ::
               r.localModels[n].quantization == "" && r.localModels[n].lastUsed < now
    modifies r
    ensures r.Valid() && again == name
  {
    hide Family, Preferred, Visits, Scan, Candidates, Used, OnPeer;
    ghost var before := r.localModels;
    SameFamilySubstitutes(before, first, second);
    var endpoint, substitute;
    name, endpoint, substitute := r.SelectBestModel(first, now);
    assert r.localModels == Used(before, name, now) && Substitutes(before, second, name);
    UsedKeepsRoles(before, name, now, second);
    again, endpoint, substitute := r.SelectBestModel(second, later);
    LastUsedPreferred(before, name, now, second, again);
  }
}
