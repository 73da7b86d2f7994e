/** Outfit generation and the history store of routes/outfits.js. The catalog the
    source reads from disk for a gender is a parameter; so are the generated ids and
    the timestamp. The history store is shared with routes/history.js. */
module Outfits {
  import opened Common

  /** How many catalog entries one generation returns. */
  const MaxBatch := 5
  /** How many entries a user's history keeps. */
  const HistoryCap := 50

  const ImagesRoot := "/api/images/"
  const GenderOccasionRequired := "gender and occasion are required."
  const UserIdOutfitRequired := "userId and outfit are required."

  function NoDataForGender(gender: string): string { "No outfit data found for gender: " + gender }
  function NoOutfitsForOccasion(occasion: string): string { "No outfits found for occasion: " + occasion }

  /** A catalog item: its category and file, and its other fields. */
  datatype Item = Item(category: string, file: string, extra: Object)

  /** A catalog entry; `name` and `tags` may be missing. */
  datatype OutfitDef = OutfitDef(name: Option<string>, tags: Option<seq<Json>>, items: seq<Item>)

  /** The value a catalog holds for an occasion: an array of entries, or anything else. */
  datatype Section = OutfitList(defs: seq<OutfitDef>) | NotAList

  /** The parsed catalog file of one gender: occasion (lower case) to section. */
  type Catalog = map<string, Section>

  /** A generated outfit, as returned to the client. */
  datatype Outfit = Outfit(id: string, index: nat, name: string, gender: string, occasion: string,
                           tags: seq<Json>, items: seq<Item>)

  // ---------------------------------------------------------------- image urls

  /** `imageUrl`: the image's path under the images root; ImageUrlDeterminesParts
      shows the parts can be read back. */
  function ImageUrl(gender: string, occasion: string, category: string, file: string): (r: string)
    ensures |r| == |ImagesRoot| + |gender| + |occasion| + |category| + |file| + 3
    ensures r[..|ImagesRoot|] == ImagesRoot && r[|r| - |file|..] == file
  {
    ImagesRoot + (gender + "/" + (occasion + "/" + (category + "/" + file)))
  }

  lemma {:induction false} SplitAtSlash(a: string, b: string, a': string, b': string)
    requires '/' !in a && '/' !in a'
    requires a + "/" + b == a' + "/" + b'
    ensures a == a' && b == b'
  {
    var x := a + "/" + b;
    assert x == a' + "/" + b';
    assert forall i :: 0 <= i < |a| ==> x[i] == a[i] != '/';
    assert forall i :: 0 <= i < |a'| ==> x[i] == a'[i] != '/';
    assert x[|a|] == '/' && x[|a'|] == '/';
    assert |a| == |a'|;
    assert a == x[..|a|] == a';
    assert b == x[|a| + 1..] == b';
  }

  /** Image locations are told apart by their url: with no '/' inside the gender,
      the occasion and the category, the url determines all four parts. */
  lemma {:induction false} ImageUrlDeterminesParts(g: string, o: string, c: string, f: string,
                                                   g': string, o': string, c': string, f': string)
    requires '/' !in g && '/' !in o && '/' !in c
    requires '/' !in g' && '/' !in o' && '/' !in c'
    requires ImageUrl(g, o, c, f) == ImageUrl(g', o', c', f')
    ensures g == g' && o == o' && c == c' && f == f'
  {
    var rest := g + "/" + (o + "/" + (c + "/" + f));
    var rest' := g' + "/" + (o' + "/" + (c' + "/" + f'));
    assert rest == (ImagesRoot + rest)[|ImagesRoot|..] == rest';
    SplitAtSlash(g, o + "/" + (c + "/" + f), g', o' + "/" + (c' + "/" + f'));
    SplitAtSlash(o, c + "/" + f, o', c' + "/" + f');
    SplitAtSlash(c, f, c', f');
  }

  // ---------------------------------------------------------------- generation

  /** The decimal digits of `n`, as a template literal prints a number. */
  function DecimalString(n: nat): string
    decreases n
  {
    (if n < 10 then "" else DecimalString(n / 10)) + [('0' as int + n % 10) as char]
  }

  /** The item with its image url attached: `{...item, imageUrl}`. */
  function WithImageUrl(item: Item, genderKey: string, occasionKey: string): Item {
    item.(extra := item.extra["imageUrl" := JStr(ImageUrl(genderKey, occasionKey, item.category, item.file))])
  }

  /** The outfit generated from catalog entry `i` (counted from 0): its position, a
      name and tags with their defaults, the request's gender and occasion as given,
      and every catalog item with all its fields plus an image url built from the
      lower-cased gender and occasion. */
  function MakeOutfit(def: OutfitDef, i: nat, gender: string, occasion: string, id: string): (o: Outfit)
    ensures o.id == id && o.index == i + 1
    ensures o.name == (if def.name.Some? && def.name.value != "" then def.name.value else "Outfit " + DecimalString(i + 1))
    ensures o.gender == gender && o.occasion == occasion
    ensures o.tags == (if def.tags.Some? then def.tags.value else [])
    ensures |o.items| == |def.items|
    ensures forall k :: 0 <= k < |def.items| ==>
      && o.items[k].category == def.items[k].category
      && o.items[k].file == def.items[k].file
      && o.items[k].extra.Keys == def.items[k].extra.Keys + {"imageUrl"}
      && o.items[k].extra["imageUrl"] == JStr(ImageUrl(Lower(gender), Lower(occasion), def.items[k].category, def.items[k].file))
      && forall key :: key in def.items[k].extra && key != "imageUrl" ==> o.items[k].extra[key] == def.items[k].extra[key]
  {
    Outfit(
      id,
      i + 1,
      if Truthy(def.name) then def.name.value else "Outfit " + DecimalString(i + 1),
      gender,
      occasion,
      if def.tags.Some? then def.tags.value else [],
      seq(|def.items|, k requires 0 <= k < |def.items| => WithImageUrl(def.items[k], Lower(gender), Lower(occasion))))
  }

  /** Taking the image url off a generated item gives back the catalog item, when
      the catalog item had no url of its own. */
  lemma {:induction false} ImageUrlRemovable(def: OutfitDef, i: nat, gender: string, occasion: string, id: string, k: nat)
    requires k < |def.items| && "imageUrl" !in def.items[k].extra
    ensures var item := MakeOutfit(def, i, gender, occasion, id).items[k];
      item.(extra := item.extra - {"imageUrl"}) == def.items[k]
  {
  }

  /** The catalog entry number `i` yields the default name "Outfit <i+1>" when it
      has no name; for the five entries of a batch that is one digit. */
  lemma DefaultNames(i: nat)
    requires i < MaxBatch
    ensures "Outfit " + DecimalString(i + 1) == "Outfit " + [('1' as int + i) as char]
  {
  }

  /** POST /generate-outfits without its history side effect. `catalog` is the
      parsed catalog file of the lower-cased gender, None when it is missing or
      unreadable; `ids` are the fresh ids of the outfits. */
  function Generate(gender: Option<string>, occasion: Option<string>, catalog: Option<Catalog>,
                    ids: seq<string>): (r: Response<seq<Outfit>>)
    requires |ids| >= MaxBatch
    ensures r.Ok? || r.BadRequest? || r.NotFound?
    ensures r.BadRequest? <==> !Truthy(gender) || !Truthy(occasion)
    ensures r.BadRequest? ==> r.error == GenderOccasionRequired
    ensures r.Ok? <==>
      && Truthy(gender) && Truthy(occasion) && catalog.Some?
      && Lower(occasion.value) in catalog.value && catalog.value[Lower(occasion.value)].OutfitList?
    ensures r.NotFound? ==>
      r.error == if catalog.None? then NoDataForGender(gender.value) else NoOutfitsForOccasion(occasion.value)
    ensures r.Ok? ==>
      var defs := catalog.value[Lower(occasion.value)].defs;
      && |r.body| == Min(MaxBatch, |defs|)
      && forall i :: 0 <= i < |r.body| ==> r.body[i] == MakeOutfit(defs[i], i, gender.value, occasion.value, ids[i])
  {
    if !Truthy(gender) || !Truthy(occasion) then BadRequest(GenderOccasionRequired)
    else if catalog.None? then NotFound(NoDataForGender(gender.value))
    else
      var key := Lower(occasion.value);
      if key !in catalog.value || !catalog.value[key].OutfitList? then NotFound(NoOutfitsForOccasion(occasion.value))
      else
        var defs := catalog.value[key].defs;
        var n := Min(MaxBatch, |defs|);
        Ok(seq(n, i requires 0 <= i < n => MakeOutfit(defs[i], i, gender.value, occasion.value, ids[i])))
  }

  /** The result does not depend on the catalog entries past the fifth. */
  lemma {:induction false} GenerateReadsFirstFive(gender: string, occasion: string, catalog: Catalog,
                                                 defs: seq<OutfitDef>, more: seq<OutfitDef>, ids: seq<string>)
    requires |ids| >= MaxBatch && |defs| >= MaxBatch
    requires Truthy(Some(gender)) && Truthy(Some(occasion))
    ensures var key := Lower(occasion);
      Generate(Some(gender), Some(occasion), Some(catalog[key := OutfitList(defs)]), ids)
      == Generate(Some(gender), Some(occasion), Some(catalog[key := OutfitList(defs + more)]), ids)
  {
    var key := Lower(occasion);
    var r := Generate(Some(gender), Some(occasion), Some(catalog[key := OutfitList(defs)]), ids);
    var r' := Generate(Some(gender), Some(occasion), Some(catalog[key := OutfitList(defs + more)]), ids);
    assert r.Ok? && r'.Ok?;
    assert |r.body| == |r'.body| == MaxBatch;
    forall i | 0 <= i < MaxBatch ensures r.body[i] == r'.body[i] {
      assert (defs + more)[i] == defs[i];
    }
    assert r.body == r'.body;
  }

  // ------------------------------------------------------------ history entries

  function ItemJson(item: Item): Object {
    item.extra["category" := JStr(item.category)]["file" := JStr(item.file)]
  }

  function OutfitJson(o: Outfit): Object {
    map[
      "id" := JStr(o.id), "index" := JNum(o.index), "name" := JStr(o.name),
      "gender" := JStr(o.gender), "occasion" := JStr(o.occasion), "tags" := JArr(o.tags),
      "items" := JArr(seq(|o.items|, k requires 0 <= k < |o.items| => JObj(ItemJson(o.items[k]))))
    ]
  }

  /** The history entry of a generated outfit: `{...outfit, type: 'generated', savedAt}`. */
  function GeneratedEntry(o: Outfit, savedAt: string): (e: Object)
    ensures e.Keys == {"id", "index", "name", "gender", "occasion", "tags", "items", "type", "savedAt"}
    ensures e["type"] == JStr("generated") && e["savedAt"] == JStr(savedAt)
    ensures e["id"] == JStr(o.id) && e["occasion"] == JStr(o.occasion) && e["name"] == JStr(o.name)
    ensures forall k :: k in OutfitJson(o) ==> e[k] == OutfitJson(o)[k]
  {
    OutfitJson(o) + map["type" := JStr("generated"), "savedAt" := JStr(savedAt)]
  }

  function GeneratedEntries(outfits: seq<Outfit>, savedAt: string): (es: seq<Object>)
    ensures |es| == |outfits|
    ensures forall i :: 0 <= i < |outfits| ==> es[i] == GeneratedEntry(outfits[i], savedAt)
  {
    seq(|outfits|, i requires 0 <= i < |outfits| => GeneratedEntry(outfits[i], savedAt))
  }

  /** The entry of POST /custom-save: `{id, ...outfit, type: 'custom', savedAt}`. An id
      in the payload replaces the generated one; type and time are always the store's. */
  function SavedEntry(id: string, outfit: Object, savedAt: string): (e: Object)
    ensures e.Keys == outfit.Keys + {"id", "type", "savedAt"}
    ensures e["type"] == JStr("custom") && e["savedAt"] == JStr(savedAt)
    ensures e["id"] == if "id" in outfit then outfit["id"] else JStr(id)
    ensures forall k :: k in outfit && k != "type" && k != "savedAt" ==> e[k] == outfit[k]
  {
    map["id" := JStr(id)] + outfit + map["type" := JStr("custom"), "savedAt" := JStr(savedAt)]
  }

  /** A user's history after `batch` is put in front one entry at a time and the
      result is cut to HistoryCap: newest first, the batch last-to-first, then the
      earlier history, the oldest entries dropped. */
  function Recorded(batch: seq<Object>, prior: seq<Object>): (h: seq<Object>)
    ensures |h| == Min(|batch| + |prior|, HistoryCap)
    ensures forall k :: 0 <= k < |batch| && k < HistoryCap ==> h[k] == batch[|batch| - 1 - k]
    ensures forall j :: 0 <= j < |prior| && |batch| + j < HistoryCap ==> h[|batch| + j] == prior[j]
  {
    Capped(Reversed(batch) + prior, HistoryCap)
  }

  // ---------------------------------------------------------------- the store

  /** No history is longer than HistoryCap. */
  ghost predicate Bounded(history: map<string, seq<Object>>) {
    forall u :: u in history ==> |history[u]| <= HistoryCap
  }

  /** Replacing one history by one within the cap keeps every history within it. */
  lemma BoundedUpdate(history: map<string, seq<Object>>, u: string, s: seq<Object>)
    requires Bounded(history) && |s| <= HistoryCap
    ensures Bounded(history[u := s])
  {
  }

  /** `historyStore` (user id to entries, newest first) and `customStore` (user id to
      the custom outfits the user saved, newest first, without a cap). */
  class HistoryStore {
    var history: map<string, seq<Object>>
    var custom: map<string, seq<Object>>

    ghost predicate Valid()
      reads this
    {
      Bounded(history)
    }

    constructor ()
      ensures Valid() && history == map[] && custom == map[]
    {
      history := map[];
      custom := map[];
    }

    /** `historyStore[userId] || []`. */
    function Stored(userId: string): (r: seq<Object>)
      reads this
      ensures userId in history ==> r == history[userId]
      ensures userId !in history ==> r == []
      ensures Valid() ==> |r| <= HistoryCap
    {
      if userId in history then history[userId] else []
    }

    /** POST /generate-outfits: the response of Generate; on success with a user id,
        every outfit is put in front of the user's history in turn, then the history
        is cut to HistoryCap. */
    method GenerateOutfits(gender: Option<string>, occasion: Option<string>, userId: Option<string>,
                           catalog: Option<Catalog>, ids: seq<string>, now: string)
      returns (r: Response<seq<Outfit>>)
      requires Valid() && |ids| >= MaxBatch
      modifies this
      ensures Valid() && custom == old(custom)
      ensures r == Generate(gender, occasion, catalog, ids)
      ensures history ==
        if r.Ok? && Truthy(userId) then
          old(history)[userId.value := Recorded(GeneratedEntries(r.body, now), old(Stored(userId.value)))]
        else old(history)
    {
      r := Generate(gender, occasion, catalog, ids);
      if r.Ok? && Truthy(userId) {
        RecordGenerated(userId.value, GeneratedEntries(r.body, now));
      }
    }

    /** The `forEach` of POST /generate-outfits: each entry in turn is put in front
        of the user's history (created empty when missing), then the history is cut
        to HistoryCap. */
    method RecordGenerated(userId: string, entries: seq<Object>)
      requires Valid()
      modifies this
      ensures Valid() && custom == old(custom)
      ensures history == old(history)[userId := Recorded(entries, old(Stored(userId)))]
    {
      // `historyStore[userId]`, created empty when missing, as the array unshifted
      var list := Stored(userId);
      for k := 0 to |entries|
        invariant list == Reversed(entries[..k]) + old(Stored(userId))
      {
        assert entries[..k + 1][..k] == entries[..k];
        assert Reversed(entries[..k + 1]) == [entries[k]] + Reversed(entries[..k]);
        list := [entries[k]] + list;
      }
      assert entries[..|entries|] == entries;
      BoundedUpdate(history, userId, Capped(list, HistoryCap));
      history := history[userId := Capped(list, HistoryCap)];
    }

    /** POST /custom-save. */
    method CustomSave(userId: Option<string>, outfit: Option<Object>, id: string, now: string)
      returns (r: Response<Object>)
      requires Valid()
      modifies this
      ensures Valid()
      ensures r.BadRequest? || r.Created?
      ensures r.BadRequest? <==> !Truthy(userId) || outfit.None?
      ensures r.BadRequest? ==> r.error == UserIdOutfitRequired && history == old(history) && custom == old(custom)
      ensures r.Created? ==>
        && r.body == SavedEntry(id, outfit.value, now)
        && history == old(history)[userId.value := Recorded([r.body], old(Stored(userId.value)))]
        && custom == old(custom)[userId.value := [r.body] + if userId.value in old(custom) then old(custom)[userId.value] else []]
    {
      if !Truthy(userId) || outfit.None? {
        return BadRequest(UserIdOutfitRequired);
      }
      var uid := userId.value;
      var saved := SavedEntry(id, outfit.value, now);
      var list := Stored(uid);
      list := [saved] + list;
      assert Reversed([saved]) == [saved];
      BoundedUpdate(history, uid, Capped(list, HistoryCap));
      history := history[uid := Capped(list, HistoryCap)];
      var savedList := if uid in custom then custom[uid] else [];
      custom := custom[uid := [saved] + savedList];
      r := Created(saved);
    }
  }
}
