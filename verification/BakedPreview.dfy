/** Reusing a baked render in the editor: while the render is kept, the layers it contains are hidden from the live
    overlay. The picture is right when render and overlay together show each layer of the design once. */
module BakedPreview {
  import opened Outcomes

  /** A design layer. `content` is every field except the id and a sticker's runtime preview address. */
  datatype Layer =
    | Sticker(id: string, content: string, previewUrl: Option<string>)
    | Label(id: string, content: string)

  datatype Config = Config(baseColor: string, material: string, stickers: seq<Layer>, texts: seq<Layer>)

  function Layers(c: Config): seq<Layer> { c.stickers + c.texts }

  function Ids(layers: seq<Layer>): seq<string> {
    seq(|layers|, i requires 0 <= i < |layers| => layers[i].id)
  }

  function LayerIds(c: Config): seq<string> { Ids(Layers(c)) }

  /** stickers.find(..) ?? texts.find(..) */
  function Find(layers: seq<Layer>, id: string): Option<Layer> {
    if layers == [] then None
    else if layers[0].id == id then Some(layers[0])
    else Find(layers[1..], id)
  }

  function FindLayer(c: Config, id: string): Option<Layer> {
    var sticker := Find(c.stickers, id);
    if sticker.Some? then sticker else Find(c.texts, id)
  }

  function StripRuntime(layer: Layer): Layer {
    if layer.Sticker? then layer.(previewUrl := None) else layer
  }

  function Stripped(layers: seq<Layer>): seq<Layer> {
    seq(|layers|, i requires 0 <= i < |layers| => StripRuntime(layers[i]))
  }

  predicate SameLayer(previous: Config, next: Config, id: string) {
    var a, b := FindLayer(previous, id), FindLayer(next, id);
    a.Some? && b.Some? && StripRuntime(a.value) == StripRuntime(b.value)
  }

  predicate CanKeep(previous: Config, next: Config, bakedLayerIds: seq<string>) {
    && previous.baseColor == next.baseColor
    && previous.material == next.material
    && forall id <- bakedLayerIds :: SameLayer(previous, next, id)
  }

  // ----- the editor's state

  datatype Editor = Editor(previewModelUrl: Option<string>, bakedLayerIds: seq<string>, config: Option<Config>)

  /** Layers the live overlay still draws. */
  function Visible(layers: seq<Layer>, hidden: seq<string>): seq<Layer> {
    if layers == [] then []
    else if layers[0].id in hidden then Visible(layers[1..], hidden)
    else [layers[0]] + Visible(layers[1..], hidden)
  }

  function HiddenLayerIds(e: Editor): seq<string> {
    if e.previewModelUrl.Some? then e.bakedLayerIds else []
  }

  function Clear(e: Editor): Editor {
    e.(previewModelUrl := None, bakedLayerIds := [])
  }

  function ChangeConfig(e: Editor, next: Config, mayEdit: bool): Editor {
    if !mayEdit then e
    else if e.previewModelUrl.Some? && e.config.Some? && !CanKeep(e.config.value, next, e.bakedLayerIds)
    then Clear(e).(config := Some(next))
    else e.(config := Some(next))
  }

  datatype Saved = Saved(config: Config, hasPreview: bool, ready: bool)

  /** The fetch yields the render's address, nothing, or raises. */
  datatype Fetch = Fetched(url: string) | Nothing | Raises

  datatype Edit = Edit(next: Config, mayEdit: bool)

  function Run(e: Editor, edits: seq<Edit>): Editor
    decreases |edits|
  {
    if edits == [] then e else Run(ChangeConfig(e, edits[0].next, edits[0].mayEdit), edits[1..])
  }

  /** A load for a design without a ready render clears the preview at once; any other waits for the render. */
  predicate Awaits(saved: Saved) { saved.hasPreview && saved.ready }

  /** The render arrives, whatever the design has become meanwhile. */
  function Arrives(e: Editor, saved: Saved, fetch: Fetch): Editor {
    if !fetch.Fetched? then Clear(e)
    else e.(previewModelUrl := Some(fetch.url), bakedLayerIds := LayerIds(saved.config))
  }

  /** A whole load, with the edits made while it waits. */
  function LoadPreview(e: Editor, saved: Saved, during: seq<Edit>, fetch: Fetch): Editor {
    if Awaits(saved) then Arrives(Run(e, during), saved, fetch) else Run(Clear(e), during)
  }

  class EditorState {
    var previewModelUrl: Option<string>
    var bakedLayerIds: seq<string>
    var config: Option<Config>

    constructor (e: Editor)
      requires e.previewModelUrl.None? ==> e.bakedLayerIds == []
      ensures Now() == e && Valid()
    {
      previewModelUrl, bakedLayerIds, config := e.previewModelUrl, e.bakedLayerIds, e.config;
    }

    function Now(): Editor
      reads this
    {
      Editor(previewModelUrl, bakedLayerIds, config)
    }

    /** Without a render no layer is remembered as baked. */
    predicate Valid()
      reads this
    {
      previewModelUrl.None? ==> bakedLayerIds == []
    }

    method ClearBakedPreview()
      modifies this`previewModelUrl, this`bakedLayerIds
      ensures Valid() && Now() == Clear(old(Now())) && HiddenLayerIds(Now()) == []
    {
      previewModelUrl := None;
      bakedLayerIds := [];
    }

    /** `during` are the edits made while the render is fetched. */
    method LoadBakedPreview(saved: Saved, during: seq<Edit>, fetch: Fetch) returns (loaded: bool)
      requires Valid()
      modifies this
      ensures Valid() && Now() == LoadPreview(old(Now()), saved, during, fetch)
      ensures loaded == (saved.hasPreview && saved.ready && fetch.Fetched?)
      ensures loaded ==> HiddenLayerIds(Now()) == LayerIds(saved.config) && previewModelUrl == Some(fetch.url)
      ensures !loaded ==> previewModelUrl.None?
    {
      ClearedStaysCleared(Clear(Now()), during);
      if !saved.hasPreview || !saved.ready {
        ClearBakedPreview();
        Interleave(during);
        return false;
      }
      Interleave(during);
      if !fetch.Fetched? {
        ClearBakedPreview();
        return false;
      }
      previewModelUrl := Some(fetch.url);
      bakedLayerIds := LayerIds(saved.config);
      return true;
    }

    /** Edits that come in one after another. */
    method Interleave(edits: seq<Edit>)
      requires Valid()
      modifies this
      ensures Valid() && Now() == Run(old(Now()), edits)
    {
      var rest := edits;
      while rest != []
        invariant Valid() && Run(Now(), rest) == Run(old(Now()), edits)
        decreases |rest|
      {
        HandleConfigChange(rest[0].next, rest[0].mayEdit);
        rest := rest[1..];
      }
    }

    /** resolveConflictReloadLatest, once the design has arrived: the render stays. */
    method ReloadLatestDesign(latest: Config)
      requires Valid()
      modifies this`config
      ensures Valid() && Now() == ReloadLatest(old(Now()), latest)
      ensures HiddenLayerIds(Now()) == old(HiddenLayerIds(Now()))
      ensures config == Some(latest)
    {
      config := Some(latest);
    }

    /** Only the right to edit changes the design, and only a design that keeps the baked layers keeps the render. */
    method HandleConfigChange(next: Config, mayEdit: bool)
      requires Valid()
      modifies this
      ensures Valid() && Now() == ChangeConfig(old(Now()), next, mayEdit)
      ensures config == if mayEdit then Some(next) else old(config)
      ensures previewModelUrl.Some? <==>
                && old(previewModelUrl).Some?
                && (mayEdit && old(config).Some? ==> CanKeep(old(config).value, next, old(bakedLayerIds)))
      ensures previewModelUrl.Some? ==>
                previewModelUrl == old(previewModelUrl) && bakedLayerIds == old(bakedLayerIds)
    {
      if !mayEdit {
        return;
      }
      if previewModelUrl.Some? && config.Some? {
        var keep := CanKeepBakedPreview(config.value, next, bakedLayerIds);
        if !keep {
          ClearBakedPreview();
        }
      }
      config := Some(next);
    }
  }

  method CanKeepBakedPreview(previous: Config, next: Config, bakedLayerIds: seq<string>) returns (keep: bool)
    ensures keep == CanKeep(previous, next, bakedLayerIds)
  {
    if previous.baseColor != next.baseColor || previous.material != next.material {
      return false;
    }
    for i := 0 to |bakedLayerIds|
      invariant forall k :: 0 <= k < i ==> SameLayer(previous, next, bakedLayerIds[k])
    {
      if !SameLayer(previous, next, bakedLayerIds[i]) {
        assert bakedLayerIds[i] in bakedLayerIds;
        return false;
      }
    }
    return true;
  }

  // ----- what a kept preview guarantees

  /** The preview has just been loaded for `saved`; `atLoad` is the same design with its preview addresses filled in. */
  ghost predicate Loaded(e: Editor, atLoad: Config) {
    && e.previewModelUrl.Some? && e.config == Some(atLoad)
    && e.bakedLayerIds == LayerIds(atLoad)
  }

  /** Filling in preview addresses changes no id and nothing that is baked. */
  lemma HydratedPreviewIsLoaded(e: Editor, saved: Saved, atLoad: Config, fetch: Fetch)
    requires saved.hasPreview && saved.ready && fetch.Fetched? && e.config == Some(atLoad)
    requires Stripped(Layers(atLoad)) == Stripped(Layers(saved.config))
    ensures Loaded(LoadPreview(e, saved, [], fetch), atLoad)
  {
    var a, b := Layers(atLoad), Layers(saved.config);
    assert |Stripped(a)| == |a| && |Stripped(b)| == |b|;
    forall i | 0 <= i < |a| ensures a[i].id == b[i].id {
      assert Stripped(a)[i] == Stripped(b)[i];
    }
    assert LayerIds(atLoad) == LayerIds(saved.config);
  }

  /** Everything baked is still in the design as it was at load. */
  ghost predicate Kept(atLoad: Config, now: Config, baked: seq<string>) {
    && atLoad.baseColor == now.baseColor && atLoad.material == now.material
    && forall id <- baked :: SameLayer(atLoad, now, id)
  }

  lemma {:induction false} FindsMember(layers: seq<Layer>, i: nat)
    requires i < |layers|
    ensures Find(layers, layers[i].id).Some?
  {
    if i > 0 && layers[0].id != layers[i].id {
      FindsMember(layers[1..], i - 1);
    }
  }

  lemma FindsBaked(c: Config, id: string)
    requires id in LayerIds(c)
    ensures SameLayer(c, c, id)
  {
    var i :| 0 <= i < |Layers(c)| && Layers(c)[i].id == id;
    if i < |c.stickers| {
      FindsMember(c.stickers, i);
    } else {
      FindsMember(c.texts, i - |c.stickers|);
    }
  }

  ghost predicate KeptWhileShown(e: Editor, atLoad: Config) {
    e.previewModelUrl.Some? ==>
      e.config.Some? && e.bakedLayerIds == LayerIds(atLoad) && Kept(atLoad, e.config.value, e.bakedLayerIds)
  }

  lemma {:induction false} EditsKeep(e: Editor, atLoad: Config, edits: seq<Edit>)
    requires KeptWhileShown(e, atLoad)
    ensures KeptWhileShown(Run(e, edits), atLoad)
    decreases |edits|
  {
    if edits != [] {
      EditKeeps(e, atLoad, edits[0]);
      hide KeptWhileShown, ChangeConfig;
      EditsKeep(ChangeConfig(e, edits[0].next, edits[0].mayEdit), atLoad, edits[1..]);
    }
  }

  lemma EditKeeps(e: Editor, atLoad: Config, edit: Edit)
    requires KeptWhileShown(e, atLoad)
    ensures KeptWhileShown(ChangeConfig(e, edit.next, edit.mayEdit), atLoad)
  {
    hide FindLayer;
  }

  lemma {:induction false} ClearedStaysCleared(e: Editor, edits: seq<Edit>)
    requires e.previewModelUrl.None?
    ensures Run(e, edits).previewModelUrl.None?
    decreases |edits|
  {
    hide CanKeep;
    if edits != [] {
      ClearedStaysCleared(ChangeConfig(e, edits[0].next, edits[0].mayEdit), edits[1..]);
    }
  }

  lemma KeptEitherWay(previous: Config, next: Config, later: Config, baked: seq<string>)
    requires CanKeep(previous, next, baked)
    ensures CanKeep(next, later, baked) <==> CanKeep(previous, later, baked)
  {
    hide FindLayer;
  }

  /** Over any run of edits the render stays exactly when every permitted one keeps the baked layers as they were shown
      with it. */
  lemma {:induction false} RenderStaysExactlyWhenEditsKeepIt(e: Editor, edits: seq<Edit>)
    requires e.previewModelUrl.Some? && e.config.Some?
    ensures var now := Run(e, edits);
            && (now.previewModelUrl.Some? <==>
                  forall edit <- edits :: edit.mayEdit ==> CanKeep(e.config.value, edit.next, e.bakedLayerIds))
            && (now.previewModelUrl.Some? ==>
                  now.previewModelUrl == e.previewModelUrl && now.bakedLayerIds == e.bakedLayerIds)
    decreases |edits|
  {
    if edits != [] {
      var edit := edits[0];
      var after := ChangeConfig(e, edit.next, edit.mayEdit);
      assert edits == [edit] + edits[1..];
      hide CanKeep;
      if after.previewModelUrl.Some? {
        RenderStaysExactlyWhenEditsKeepIt(after, edits[1..]);
        if edit.mayEdit {
          forall x: Config
            ensures CanKeep(edit.next, x, e.bakedLayerIds) <==> CanKeep(e.config.value, x, e.bakedLayerIds)
          {
            KeptEitherWay(e.config.value, edit.next, x, e.bakedLayerIds);
          }
        }
      } else {
        ClearedStaysCleared(after, edits[1..]);
        assert edit in edits;
      }
    }
  }

  function LastPermitted(edits: seq<Edit>, config: Option<Config>): Option<Config> {
    if edits == [] then config
    else LastPermitted(edits[1..], if edits[0].mayEdit then Some(edits[0].next) else config)
  }

  /** The design is the last one that came with the right to edit. */
  lemma {:induction false} DesignIsLastPermitted(e: Editor, edits: seq<Edit>)
    ensures Run(e, edits).config == LastPermitted(edits, e.config)
    decreases |edits|
  {
    hide CanKeep;
    if edits != [] {
      DesignIsLastPermitted(ChangeConfig(e, edits[0].next, edits[0].mayEdit), edits[1..]);
    }
  }

  // ----- each layer once

  function CountId(layers: seq<Layer>, id: string): nat {
    if layers == [] then 0 else (if layers[0].id == id then 1 else 0) + CountId(layers[1..], id)
  }

  ghost predicate UniqueIds(layers: seq<Layer>) {
    forall i, j :: 0 <= i < j < |layers| ==> layers[i].id != layers[j].id
  }

  /** What is on screen: the baked layers of the render and the live overlay. */
  ghost function OnScreen(atLoad: Config, now: Config): multiset<Layer> {
    multiset(Stripped(Layers(atLoad))) + multiset(Stripped(Visible(Layers(now), LayerIds(atLoad))))
  }

  function Covered(layers: seq<Layer>, hidden: seq<string>): seq<Layer> {
    if layers == [] then []
    else if layers[0].id in hidden then [layers[0]] + Covered(layers[1..], hidden)
    else Covered(layers[1..], hidden)
  }

  lemma StrippedCons(layers: seq<Layer>)
    requires layers != []
    ensures Stripped(layers) == [StripRuntime(layers[0])] + Stripped(layers[1..])
  {
  }

  lemma {:induction false} VisibleAndCovered(layers: seq<Layer>, hidden: seq<string>)
    ensures multiset(Stripped(layers)) ==
            multiset(Stripped(Visible(layers, hidden))) + multiset(Stripped(Covered(layers, hidden)))
  {
    if layers != [] {
      VisibleAndCovered(layers[1..], hidden);
      StrippedCons(layers);
      var v, c := Visible(layers[1..], hidden), Covered(layers[1..], hidden);
      if layers[0].id in hidden {
        StrippedCons([layers[0]] + c);
        assert ([layers[0]] + c)[1..] == c;
      } else {
        StrippedCons([layers[0]] + v);
        assert ([layers[0]] + v)[1..] == v;
      }
    }
  }

  lemma {:induction false} CoveredCounts(layers: seq<Layer>, hidden: seq<string>, id: string)
    ensures CountId(Covered(layers, hidden), id) == if id in hidden then CountId(layers, id) else 0
    ensures forall l <- Covered(layers, hidden) :: l in layers && l.id in hidden
  {
    if layers != [] {
      CoveredCounts(layers[1..], hidden, id);
      if layers[0].id in hidden {
        assert Covered(layers, hidden)[1..] == Covered(layers[1..], hidden);
      }
    }
  }

  /** The number of layers with an id, read off the multiset of stripped layers. */
  lemma {:induction false} CountIdOfMultiset(a: seq<Layer>, b: seq<Layer>, id: string)
    requires multiset(Stripped(a)) == multiset(Stripped(b))
    ensures CountId(a, id) == CountId(b, id)
    decreases |a|
  {
    assert |multiset(Stripped(a))| == |a| && |multiset(Stripped(b))| == |b|;
    if a != [] {
      StrippedCons(a);
      var x := StripRuntime(a[0]);
      assert x in multiset(Stripped(b));
      var j :| 0 <= j < |b| && Stripped(b)[j] == x;
      var b' := b[..j] + b[j + 1..];
      RemoveAt(b, j, id);
      assert multiset(Stripped(a[1..])) == multiset(Stripped(a)) - multiset{x};
      CountIdOfMultiset(a[1..], b', id);
    }
  }

  lemma {:induction false} CountAppend(a: seq<Layer>, b: seq<Layer>, id: string)
    ensures CountId(a + b, id) == CountId(a, id) + CountId(b, id)
  {
    if a == [] {
      assert a + b == b;
    } else {
      assert (a + b)[1..] == a[1..] + b;
      CountAppend(a[1..], b, id);
    }
  }

  lemma StrippedAppend(a: seq<Layer>, b: seq<Layer>)
    ensures Stripped(a + b) == Stripped(a) + Stripped(b)
  {
  }

  lemma RemoveAt(b: seq<Layer>, j: nat, id: string)
    requires j < |b|
    ensures var b' := b[..j] + b[j + 1..];
            && multiset(Stripped(b')) == multiset(Stripped(b)) - multiset{StripRuntime(b[j])}
            && CountId(b, id) == CountId(b', id) + if b[j].id == id then 1 else 0
  {
    var front, one, back := b[..j], [b[j]], b[j + 1..];
    assert b == front + (one + back);
    StrippedAppend(front, one + back);
    StrippedAppend(one, back);
    StrippedAppend(front, back);
    assert Stripped(one) == [StripRuntime(b[j])];
    CountAppend(front, one + back, id);
    CountAppend(one, back, id);
    CountAppend(front, back, id);
    assert one[1..] == [];
    hide Stripped;
  }

  lemma {:induction false} UniqueIsCountedOnce(layers: seq<Layer>, id: string)
    requires UniqueIds(layers)
    ensures CountId(layers, id) <= 1
  {
    if layers != [] {
      UniqueIsCountedOnce(layers[1..], id);
      if CountId(layers[1..], id) > 0 {
        CountedIsThere(layers[1..], id);
        var i :| 0 <= i < |layers[1..]| && layers[1..][i].id == id;
        assert layers[i + 1].id == id;
      }
    }
  }

  lemma {:induction false} CountedOnceIsUnique(layers: seq<Layer>)
    requires forall l <- layers :: CountId(layers, l.id) <= 1
    ensures UniqueIds(layers)
  {
    if layers != [] {
      forall l <- layers[1..] ensures CountId(layers[1..], l.id) <= 1 {
        assert l in layers && CountId(layers, l.id) <= 1;
      }
      CountedOnceIsUnique(layers[1..]);
      forall j | 0 < j < |layers| ensures layers[0].id != layers[j].id {
        ThereIsCounted(layers[1..], j - 1);
        assert layers[1..][j - 1] == layers[j] && layers[j] in layers;
        assert CountId(layers, layers[j].id) <= 1;
      }
      assert forall i, j :: 0 < i < j < |layers| ==> layers[i] == layers[1..][i - 1] && layers[j] == layers[1..][j - 1];
    }
  }

  lemma {:induction false} CountedIsThere(layers: seq<Layer>, id: string)
    requires CountId(layers, id) > 0
    ensures exists i :: 0 <= i < |layers| && layers[i].id == id
  {
    if layers[0].id != id {
      CountedIsThere(layers[1..], id);
      var i :| 0 <= i < |layers[1..]| && layers[1..][i].id == id;
      assert layers[i + 1].id == id;
    }
  }

  lemma {:induction false} ThereIsCounted(layers: seq<Layer>, i: nat)
    requires i < |layers|
    ensures CountId(layers, layers[i].id) > 0
  {
    if i > 0 {
      ThereIsCounted(layers[1..], i - 1);
    }
  }

  /** Two layer lists with unique ids and the same stripped members are the same picture. */
  lemma SameMembersSameMultiset(a: seq<Layer>, b: seq<Layer>)
    requires UniqueIds(a) && UniqueIds(b)
    requires forall x :: x in Stripped(a) <==> x in Stripped(b)
    ensures multiset(Stripped(a)) == multiset(Stripped(b))
  {
    StrippedOnce(a);
    StrippedOnce(b);
    forall x: Layer ensures multiset(Stripped(a))[x] == multiset(Stripped(b))[x] {
      assert x in multiset(Stripped(a)) <==> x in Stripped(a);
      assert x in multiset(Stripped(b)) <==> x in Stripped(b);
    }
  }

  lemma {:induction false} StrippedOnce(a: seq<Layer>)
    requires UniqueIds(a)
    ensures forall x: Layer :: multiset(Stripped(a))[x] <= 1
  {
    if a != [] {
      StrippedOnce(a[1..]);
      StrippedCons(a);
      assert forall j :: 0 <= j < |a[1..]| ==> Stripped(a[1..])[j].id == a[j + 1].id;
      assert StripRuntime(a[0]) !in Stripped(a[1..]);
    }
  }

  lemma {:induction false} FoundOne(layers: seq<Layer>, id: string, l: Layer)
    requires UniqueIds(layers) && l in layers && l.id == id
    ensures Find(layers, id) == Some(l)
  {
    if layers[0] != l {
      assert l in layers[1..];
      var j :| 0 <= j < |layers[1..]| && layers[1..][j] == l;
      assert layers[j + 1] == l;
      FoundOne(layers[1..], id, l);
    }
  }

  lemma {:induction false} FindInConcat(a: seq<Layer>, b: seq<Layer>, id: string)
    ensures Find(a + b, id) == if Find(a, id).Some? then Find(a, id) else Find(b, id)
  {
    if a == [] {
      assert a + b == b;
    } else {
      assert (a + b)[1..] == a[1..] + b;
      FindInConcat(a[1..], b, id);
    }
  }

  lemma {:induction false} FoundIsThere(layers: seq<Layer>, id: string)
    requires Find(layers, id).Some?
    ensures Find(layers, id).value in layers && Find(layers, id).value.id == id
  {
    if layers[0].id != id {
      FoundIsThere(layers[1..], id);
    }
  }

  /** With unique ids, a layer that is there is the one findLayer returns. */
  lemma FindLayerIsUnique(c: Config, l: Layer)
    requires UniqueIds(Layers(c)) && l in Layers(c)
    ensures FindLayer(c, l.id) == Some(l)
  {
    FindInConcat(c.stickers, c.texts, l.id);
    FoundOne(Layers(c), l.id, l);
  }

  lemma FindLayerIsThere(c: Config, id: string)
    requires FindLayer(c, id).Some?
    ensures FindLayer(c, id).value in Layers(c) && FindLayer(c, id).value.id == id
  {
    FindInConcat(c.stickers, c.texts, id);
    FoundIsThere(Layers(c), id);
  }

  lemma InIds(c: Config, l: Layer)
    requires l in Layers(c)
    ensures l.id in LayerIds(c)
  {
    var i :| 0 <= i < |Layers(c)| && Layers(c)[i] == l;
    assert LayerIds(c)[i] == l.id;
  }

  lemma InStripped(layers: seq<Layer>, l: Layer)
    requires l in layers
    ensures StripRuntime(l) in Stripped(layers)
  {
    var i :| 0 <= i < |layers| && layers[i] == l;
    assert Stripped(layers)[i] == StripRuntime(l);
  }

  lemma {:induction false} InCovered(layers: seq<Layer>, hidden: seq<string>, l: Layer)
    requires l in layers && l.id in hidden
    ensures l in Covered(layers, hidden)
  {
    if layers[0] != l {
      InCovered(layers[1..], hidden, l);
    }
  }

  /** What the overlay leaves out is exactly what the render contains. */
  lemma CoveredIsBaked(atLoad: Config, now: Config)
    requires UniqueIds(Layers(atLoad)) && UniqueIds(Covered(Layers(now), LayerIds(atLoad)))
    requires Kept(atLoad, now, LayerIds(atLoad))
    ensures multiset(Stripped(Covered(Layers(now), LayerIds(atLoad)))) == multiset(Stripped(Layers(atLoad)))
  {
    var baked := LayerIds(atLoad);
    var covered := Covered(Layers(now), baked);
    CoveredCounts(Layers(now), baked, "");
    forall x ensures x in Stripped(covered) <==> x in Stripped(Layers(atLoad)) {
      if x in Stripped(Layers(atLoad)) {
        var i :| 0 <= i < |Layers(atLoad)| && Stripped(Layers(atLoad))[i] == x;
        BakedLayerIsCovered(atLoad, now, Layers(atLoad)[i]);
      }
      if x in Stripped(covered) {
        var i :| 0 <= i < |covered| && Stripped(covered)[i] == x;
        CoveredLayerIsBaked(atLoad, now, covered[i]);
      }
    }
    SameMembersSameMultiset(covered, Layers(atLoad));
  }

  lemma BakedLayerIsCovered(atLoad: Config, now: Config, l: Layer)
    requires UniqueIds(Layers(atLoad)) && Kept(atLoad, now, LayerIds(atLoad)) && l in Layers(atLoad)
    ensures StripRuntime(l) in Stripped(Covered(Layers(now), LayerIds(atLoad)))
  {
    InIds(atLoad, l);
    FindLayerIsUnique(atLoad, l);
    assert SameLayer(atLoad, now, l.id);
    FindLayerIsThere(now, l.id);
    var there := FindLayer(now, l.id).value;
    InCovered(Layers(now), LayerIds(atLoad), there);
    InStripped(Covered(Layers(now), LayerIds(atLoad)), there);
  }

  lemma CoveredLayerIsBaked(atLoad: Config, now: Config, l: Layer)
    requires UniqueIds(Covered(Layers(now), LayerIds(atLoad)))
    requires Kept(atLoad, now, LayerIds(atLoad)) && l in Covered(Layers(now), LayerIds(atLoad))
    ensures StripRuntime(l) in Stripped(Layers(atLoad))
  {
    var baked := LayerIds(atLoad);
    CoveredCounts(Layers(now), baked, "");
    assert SameLayer(atLoad, now, l.id);
    FindLayerIsThere(atLoad, l.id);
    FindLayerIsThere(now, l.id);
    InCovered(Layers(now), baked, FindLayer(now, l.id).value);
    FoundOne(Covered(Layers(now), baked), l.id, l);
    FoundOne(Covered(Layers(now), baked), l.id, FindLayer(now, l.id).value);
    InStripped(Layers(atLoad), FindLayer(atLoad, l.id).value);
  }

  /** While a loaded preview is kept, over any run of edits at all, render and overlay show exactly the design's
      layers, each once, if and only if no baked id occurs twice in the design; base colour and material are those
      at load. */
  lemma KeptPreviewShowsTheDesign(e: Editor, atLoad: Config, edits: seq<Edit>)
    requires Loaded(e, atLoad) && UniqueIds(Layers(atLoad))
    ensures var now := Run(e, edits);
            now.previewModelUrl.Some? ==>
              && now.config.Some?
              && now.config.value.baseColor == atLoad.baseColor
              && now.config.value.material == atLoad.material
              && HiddenLayerIds(now) == LayerIds(atLoad)
              && (OnScreen(atLoad, now.config.value) == multiset(Stripped(Layers(now.config.value))) <==>
                    forall id <- LayerIds(atLoad) :: CountId(Layers(now.config.value), id) <= 1)
  {
    forall id <- LayerIds(atLoad) ensures SameLayer(atLoad, atLoad, id) {
      FindsBaked(atLoad, id);
    }
    EditsKeep(e, atLoad, edits);
    var now := Run(e, edits);
    if now.previewModelUrl.Some? {
      ScreenIsRightExactlyWhenUnique(atLoad, now.config.value);
    }
  }

  lemma ScreenIsRightExactlyWhenUnique(atLoad: Config, now: Config)
    requires UniqueIds(Layers(atLoad)) && Kept(atLoad, now, LayerIds(atLoad))
    ensures OnScreen(atLoad, now) == multiset(Stripped(Layers(now))) <==>
            forall id <- LayerIds(atLoad) :: CountId(Layers(now), id) <= 1
  {
    var baked := LayerIds(atLoad);
    var covered := Covered(Layers(now), baked);
    VisibleAndCovered(Layers(now), baked);
    hide UniqueIds, Kept, Covered, Visible, Stripped, CountId, Layers, LayerIds;
    if forall id <- baked :: CountId(Layers(now), id) <= 1 {
      forall l <- covered ensures CountId(covered, l.id) <= 1 {
        CoveredCounts(Layers(now), baked, l.id);
      }
      CountedOnceIsUnique(covered);
      CoveredIsBaked(atLoad, now);
    }
    if multiset(Stripped(covered)) == multiset(Stripped(Layers(atLoad))) {
      forall id <- baked ensures CountId(Layers(now), id) <= 1 {
        CoveredCounts(Layers(now), baked, id);
        CountIdOfMultiset(covered, Layers(atLoad), id);
        UniqueIsCountedOnce(Layers(atLoad), id);
      }
    }
    Cancel(multiset(Stripped(Visible(Layers(now), baked))), multiset(Stripped(covered)),
      multiset(Stripped(Layers(atLoad))));
  }

  lemma Cancel(a: multiset<Layer>, b: multiset<Layer>, c: multiset<Layer>)
    ensures c + a == a + b <==> b == c
  {
    if c + a == a + b {
      forall x: Layer ensures b[x] == c[x] {
        assert (c + a)[x] == (a + b)[x];
      }
    }
  }

  // ----- edits while the render is fetched

  /** The picture is the design: colour, material, and each layer once. */
  ghost predicate Right(rendered: Config, now: Config) {
    && rendered.baseColor == now.baseColor && rendered.material == now.material
    && OnScreen(rendered, now) == multiset(Stripped(Layers(now)))
  }

  /** Whatever the design is, a render shows it right if and only if canKeepBakedPreview would keep it and no baked id
      occurs twice. */
  lemma RightExactlyWhenKept(rendered: Config, now: Config)
    requires UniqueIds(Layers(rendered))
    ensures Right(rendered, now) <==>
            CanKeep(rendered, now, LayerIds(rendered))
              && forall id <- LayerIds(rendered) :: CountId(Layers(now), id) <= 1
  {
    if CanKeep(rendered, now, LayerIds(rendered)) {
      ScreenIsRightExactlyWhenUnique(rendered, now);
    } else if Right(rendered, now) {
      RightIsKept(rendered, now);
    }
    hide OnScreen, UniqueIds, CountId, LayerIds, Layers, Stripped;
  }

  lemma RightIsKept(rendered: Config, now: Config)
    requires UniqueIds(Layers(rendered)) && Right(rendered, now)
    ensures CanKeep(rendered, now, LayerIds(rendered))
  {
    var baked := LayerIds(rendered);
    var covered := Covered(Layers(now), baked);
    VisibleAndCovered(Layers(now), baked);
    Cancel(multiset(Stripped(Visible(Layers(now), baked))), multiset(Stripped(covered)),
           multiset(Stripped(Layers(rendered))));
    assert multiset(Stripped(covered)) == multiset(Stripped(Layers(rendered)));
    hide UniqueIds, Covered, Visible, Stripped, Layers, LayerIds, OnScreen, SameLayer;
    forall l <- covered ensures CountId(covered, l.id) <= 1 {
      CountIdOfMultiset(covered, Layers(rendered), l.id);
      UniqueIsCountedOnce(Layers(rendered), l.id);
    }
    CountedOnceIsUnique(covered);
    forall id <- baked ensures SameLayer(rendered, now, id) {
      BakedLayerIsThere(rendered, now, id);
    }
  }

  lemma BakedLayerIsThere(rendered: Config, now: Config, id: string)
    requires id in LayerIds(rendered)
    requires UniqueIds(Covered(Layers(now), LayerIds(rendered)))
    requires multiset(Stripped(Covered(Layers(now), LayerIds(rendered)))) == multiset(Stripped(Layers(rendered)))
    ensures SameLayer(rendered, now, id)
  {
    var covered := Covered(Layers(now), LayerIds(rendered));
    FindsBaked(rendered, id);
    FindLayerIsThere(rendered, id);
    var l := FindLayer(rendered, id).value;
    InStripped(Layers(rendered), l);
    assert StripRuntime(l) in multiset(Stripped(covered));
    var i :| 0 <= i < |covered| && Stripped(covered)[i] == StripRuntime(l);
    CoveredCounts(Layers(now), LayerIds(rendered), id);
    var m := covered[i];
    assert m in Layers(now) && m.id == id;
    InIds(now, m);
    FindsBaked(now, id);
    FindLayerIsThere(now, id);
    var found := FindLayer(now, id).value;
    InCovered(Layers(now), LayerIds(rendered), found);
    FoundOne(covered, id, m);
    FoundOne(covered, id, found);
  }

  /** Since the render arrived the design is unchanged, or it has been edited and kept the baked layers. */
  ghost predicate KeptSince(e: Editor, arrived: Config, baked: seq<string>) {
    e.previewModelUrl.Some? ==>
      && e.config.Some? && e.bakedLayerIds == baked
      && (e.config.value == arrived || CanKeep(arrived, e.config.value, baked))
  }

  lemma EditKeepsSince(e: Editor, arrived: Config, baked: seq<string>, edit: Edit)
    requires KeptSince(e, arrived, baked)
    ensures KeptSince(ChangeConfig(e, edit.next, edit.mayEdit), arrived, baked)
  {
    hide FindLayer;
  }

  lemma {:induction false} EditsKeepSince(e: Editor, arrived: Config, baked: seq<string>, edits: seq<Edit>)
    requires KeptSince(e, arrived, baked)
    ensures KeptSince(Run(e, edits), arrived, baked)
    decreases |edits|
  {
    if edits != [] {
      EditKeepsSince(e, arrived, baked, edits[0]);
      hide KeptSince, ChangeConfig;
      EditsKeepSince(ChangeConfig(e, edits[0].next, edits[0].mayEdit), arrived, baked, edits[1..]);
    }
  }

  lemma SameAsArrived(rendered: Config, arrived: Config, now: Config, baked: seq<string>)
    requires arrived == now || CanKeep(arrived, now, baked)
    ensures CanKeep(rendered, now, baked) <==> CanKeep(rendered, arrived, baked)
  {
    hide FindLayer;
  }

  /** Edits are possible while a render is fetched and after it arrived. Whatever they are, as long as that render is
      shown the picture is right if and only if the design kept the rendered layers until it arrived, and no baked id
      occurs twice now. Otherwise nothing notices: later edits are only compared with the design of that moment. */
  lemma LoadedPreviewIsRightExactlyWhenNotOvertaken(e: Editor, saved: Saved, during: seq<Edit>, url: string,
      later: seq<Edit>)
    requires Awaits(saved) && Run(e, during).config.Some? && UniqueIds(Layers(saved.config))
    ensures var arrived := Run(e, during).config.value;
            var now := Run(LoadPreview(e, saved, during, Fetched(url)), later);
            now.previewModelUrl.Some? ==>
              now.config.Some? &&
              (Right(saved.config, now.config.value) <==>
                 && CanKeep(saved.config, arrived, LayerIds(saved.config))
                 && forall id <- LayerIds(saved.config) :: CountId(Layers(now.config.value), id) <= 1)
  {
    var arrived := Run(e, during).config.value;
    var loaded := LoadPreview(e, saved, during, Fetched(url));
    EditsKeepSince(loaded, arrived, LayerIds(saved.config), later);
    var now := Run(loaded, later);
    hide Run, LoadPreview, Right, CanKeep, CountId, Layers, LayerIds, UniqueIds;
    if now.previewModelUrl.Some? {
      SameAsArrived(saved.config, arrived, now.config.value, LayerIds(saved.config));
      RightExactlyWhenKept(saved.config, now.config.value);
    }
  }

  /** Taking over the latest design of the server after a conflict: nothing is compared, and no render is loaded. */
  function ReloadLatest(e: Editor, latest: Config): Editor {
    e.(config := Some(latest))
  }

  /** Whatever the editor showed, after such a reload and over any edits, while a render of `rendered` is shown the
      picture is right if and only if the reloaded design keeps the rendered layers, and no baked id occurs twice. */
  lemma ReloadedDesignIsRightExactlyWhenKept(e: Editor, rendered: Config, latest: Config, later: seq<Edit>)
    requires e.bakedLayerIds == LayerIds(rendered) && UniqueIds(Layers(rendered))
    ensures var now := Run(ReloadLatest(e, latest), later);
            now.previewModelUrl.Some? ==>
              now.config.Some? &&
              (Right(rendered, now.config.value) <==>
                 && CanKeep(rendered, latest, LayerIds(rendered))
                 && forall id <- LayerIds(rendered) :: CountId(Layers(now.config.value), id) <= 1)
  {
    var now := Run(ReloadLatest(e, latest), later);
    EditsKeepSince(ReloadLatest(e, latest), latest, LayerIds(rendered), later);
    hide Run, Right, CanKeep, CountId, Layers, LayerIds, UniqueIds;
    if now.previewModelUrl.Some? {
      SameAsArrived(rendered, latest, now.config.value, LayerIds(rendered));
      RightExactlyWhenKept(rendered, now.config.value);
    }
  }

  /** A sticker moved while the render is fetched is hidden where it is and shown where it was. */
  lemma EditDuringLoadShowsTheOldRender()
    ensures var saved := Saved(Config("#fff", "matte", [Sticker("a", "left", None)], []), true, true);
            var moved := Config("#fff", "matte", [Sticker("a", "right", None)], []);
            var e := LoadPreview(Editor(None, [], Some(saved.config)), saved, [Edit(moved, true)], Fetched("render"));
            e.config == Some(moved) && e.previewModelUrl.Some? && !Right(saved.config, moved)
  {
    var saved := Saved(Config("#fff", "matte", [Sticker("a", "left", None)], []), true, true);
    var moved := Config("#fff", "matte", [Sticker("a", "right", None)], []);
    var start := Editor(None, [], Some(saved.config));
    assert Run(start, [Edit(moved, true)]) == ChangeConfig(start, moved, true);
    assert LayerIds(saved.config) == ["a"];
    assert !SameLayer(saved.config, moved, "a");
    assert ["a"][0] in LayerIds(saved.config);
    RightExactlyWhenKept(saved.config, moved);
  }

  // ----- an id twice

  /** A second layer with a baked id is on neither picture. */
  lemma DuplicateIdLosesALayer()
    ensures var atLoad := Config("#fff", "matte", [Sticker("a", "x", None)], []);
            var next := Config("#fff", "matte", [Sticker("a", "x", None)], [Label("a", "y")]);
            && CanKeep(atLoad, next, LayerIds(atLoad))
            && OnScreen(atLoad, next) != multiset(Stripped(Layers(next)))
  {
    var atLoad := Config("#fff", "matte", [Sticker("a", "x", None)], []);
    var next := Config("#fff", "matte", [Sticker("a", "x", None)], [Label("a", "y")]);
    assert LayerIds(atLoad) == ["a"];
    assert Layers(next)[1..] == [Label("a", "y")] && Layers(next)[1..][1..] == [];
    assert CountId(Layers(next), "a") == 2;
    ScreenIsRightExactlyWhenUnique(atLoad, next);
  }
}
