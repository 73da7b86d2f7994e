/** The routes of routes/history.js over the history store that routes/outfits.js
    owns: list with filters, remove one outfit id, clear. */
module History {
  import opened Common
  import opened Outfits

  /** The most entries one listing returns when a limit is given. */
  const ListCap := 100

  const UserIdRequired := "userId is required."
  const NoHistory := "No history found for this user."
  const NotInHistory := "Outfit not found in history."
  const RemovedMessage := "Outfit removed from history."
  const ClearedMessage := "History cleared."

  /** The `limit` query parameter after `parseInt(limit, 10)`: absent or empty, a
      number (possibly negative), or NaN. */
  datatype Limit = NoLimit | Parsed(n: int) | NaN

  /** The body of GET /history/:userId. */
  datatype Page = Page(userId: string, count: nat, outfits: seq<Object>)

  predicate HasType(e: Object, t: string) {
    "type" in e && e["type"] == JStr(t)
  }

  /** `o.occasion?.toLowerCase() === occasion.toLowerCase()`: false when the entry
      has no occasion or a null one. */
  predicate OccasionMatches(e: Object, occasion: string) {
    "occasion" in e && e["occasion"].JStr? && SameIgnoringCase(e["occasion"].s, occasion)
  }

  /** `o.occasion?.toLowerCase()` throws on an occasion that is not a string or null. */
  predicate OccasionThrows(e: Object) {
    "occasion" in e && !e["occasion"].JStr? && !e["occasion"].JNull?
  }

  predicate HasId(e: Object, id: string) {
    "id" in e && e["id"] == JStr(id)
  }

  /** An entry passes the filters that are given (non-empty). */
  predicate Selected(e: Object, typeFilter: Option<string>, occasionFilter: Option<string>) {
    && (Truthy(typeFilter) ==> HasType(e, typeFilter.value))
    && (Truthy(occasionFilter) ==> OccasionMatches(e, occasionFilter.value))
  }

  /** The type filter: exactly the entries of this type, in order. */
  function OfType(s: seq<Object>, t: string): (r: seq<Object>)
    ensures IsSubsequence(r, s)
    ensures forall e :: e in r <==> e in s && HasType(e, t)
    ensures forall e :: multiset(r)[e] == if HasType(e, t) then multiset(s)[e] else 0
  {
    Filter(s, (e: Object) => HasType(e, t))
  }

  /** The occasion filter: exactly the entries of this occasion ignoring case, in order. */
  function OfOccasion(s: seq<Object>, occasion: string): (r: seq<Object>)
    ensures IsSubsequence(r, s)
    ensures forall e :: e in r <==> e in s && OccasionMatches(e, occasion)
    ensures forall e :: multiset(r)[e] == if OccasionMatches(e, occasion) then multiset(s)[e] else 0
  {
    Filter(s, (e: Object) => OccasionMatches(e, occasion))
  }

  /** The filter of DELETE /history/:userId/:outfitId: every entry with this id goes,
      every other stays, in order; nothing changes when no entry has the id. */
  function WithoutId(s: seq<Object>, id: string): (r: seq<Object>)
    ensures IsSubsequence(r, s)
    ensures forall e :: e in r ==> !HasId(e, id)
    ensures forall e :: multiset(r)[e] == if HasId(e, id) then 0 else multiset(s)[e]
    ensures |r| < |s| <==> exists e :: e in s && HasId(e, id)
    ensures (forall e :: e in s ==> !HasId(e, id)) ==> r == s
  {
    var keep := (e: Object) => !HasId(e, id);
    var r := Filter(s, keep);
    assert (|r| < |s| <==> exists e :: e in s && HasId(e, id)) && ((forall e :: e in s ==> !HasId(e, id)) ==> r == s) by {
      if exists e :: e in s && HasId(e, id) {
        var e :| e in s && HasId(e, id);
        var i :| 0 <= i < |s| && s[i] == e;
        FilterDrops(s, keep, i);
      } else {
        FilterKeepsAll(s, keep);
      }
    }
    r
  }

  /** `s.slice(0, Math.min(parseInt(limit), 100))`: a negative end counts back from
      the end of `s`, NaN slices nothing. */
  function ApplyLimit(s: seq<Object>, limit: Limit): (r: seq<Object>)
    ensures |r| <= |s| && r == s[..|r|]
    ensures limit.NoLimit? ==> r == s
    ensures limit.NaN? ==> r == []
    ensures limit.Parsed? && limit.n >= 0 ==> |r| == Min(Min(limit.n, ListCap), |s|)
    ensures limit.Parsed? && limit.n < 0 ==> |r| == if |s| + limit.n < 0 then 0 else |s| + limit.n
    ensures limit.Parsed? && limit.n >= 0 ==> |r| <= ListCap
  {
    match limit
    case NoLimit => s
    case NaN => []
    case Parsed(n) =>
      var end := Min(n, ListCap);
      var stop := if end >= 0 then Min(end, |s|) else if |s| + end < 0 then 0 else |s| + end;
      s[..stop]
  }

  /** The entries that pass the filters that are given, in order. */
  function Filtered(s: seq<Object>, typeFilter: Option<string>, occasionFilter: Option<string>): (r: seq<Object>)
    ensures IsSubsequence(r, s)
    ensures forall e :: e in r <==> e in s && Selected(e, typeFilter, occasionFilter)
    ensures forall e :: multiset(r)[e] == if Selected(e, typeFilter, occasionFilter) then multiset(s)[e] else 0
  {
    var typed := if Truthy(typeFilter) then OfType(s, typeFilter.value) else s;
    var matched := if Truthy(occasionFilter) then OfOccasion(typed, occasionFilter.value) else typed;
    PrefixIsSubsequence(s, |s|);
    PrefixIsSubsequence(typed, |typed|);
    assert s[..|s|] == s && typed[..|typed|] == typed;
    SubsequenceTransitive(matched, typed, s);
    matched
  }

  /** The entries a listing returns from the stored history `s`: those that pass the
      filters, in order, cut by the limit. */
  function Listed(s: seq<Object>, typeFilter: Option<string>, occasionFilter: Option<string>,
                  limit: Limit): (r: seq<Object>)
    ensures IsSubsequence(r, s)
    ensures forall e :: e in r ==> Selected(e, typeFilter, occasionFilter)
    ensures |r| <= |Filtered(s, typeFilter, occasionFilter)|
    ensures r == Filtered(s, typeFilter, occasionFilter)[..|r|]
    ensures limit.NoLimit? ==> r == Filtered(s, typeFilter, occasionFilter)
    ensures limit.NaN? ==> r == []
    ensures limit.Parsed? && limit.n >= 0 ==> |r| == Min(Min(limit.n, ListCap), |Filtered(s, typeFilter, occasionFilter)|)
    ensures limit.Parsed? && limit.n < 0 ==>
      var total := |Filtered(s, typeFilter, occasionFilter)|;
      |r| == if total + limit.n < 0 then 0 else total + limit.n
  {
    var matched := Filtered(s, typeFilter, occasionFilter);
    var page := ApplyLimit(matched, limit);
    PrefixIsSubsequence(matched, |page|);
    SubsequenceTransitive(page, matched, s);
    page
  }

  /** GET /history/:userId: the stored history, newest first, through the type
      filter, the occasion filter and the limit. An unknown user has an empty history. */
  function List(store: HistoryStore, userId: string, typeFilter: Option<string>,
                occasionFilter: Option<string>, limit: Limit): (r: Response<Page>)
    reads store
    ensures r.Ok? || r.BadRequest? || r.ServerError?
    ensures r.BadRequest? <==> userId == ""
    ensures r.BadRequest? ==> r.error == UserIdRequired
    ensures r.ServerError? <==>
      && userId != "" && Truthy(occasionFilter)
      && exists e :: e in store.Stored(userId) && OccasionThrows(e) && (Truthy(typeFilter) ==> HasType(e, typeFilter.value))
    ensures r.Ok? ==> r.body.userId == userId && r.body.count == |r.body.outfits|
    ensures r.Ok? ==> IsSubsequence(r.body.outfits, store.Stored(userId))
    ensures r.Ok? ==> forall e :: e in r.body.outfits ==> Selected(e, typeFilter, occasionFilter)
    ensures r.Ok? ==>
      var all := Filtered(store.Stored(userId), typeFilter, occasionFilter);
      && |r.body.outfits| <= |all|
      && r.body.outfits == all[..|r.body.outfits|]
      && (limit.NoLimit? ==> r.body.outfits == all)
      && (limit.Parsed? && limit.n >= 0 ==> |r.body.outfits| == Min(Min(limit.n, ListCap), |all|))
    ensures r.Ok? ==> r.body.outfits == Listed(store.Stored(userId), typeFilter, occasionFilter, limit)
    ensures r.Ok? && limit.NaN? ==> r.body.outfits == []
    ensures userId != "" && userId !in store.history ==> r == Ok(Page(userId, 0, []))
  {
    if userId == "" then BadRequest(UserIdRequired)
    else
      var stored := store.Stored(userId);
      if Truthy(occasionFilter) &&
         exists e :: e in stored && OccasionThrows(e) && (Truthy(typeFilter) ==> HasType(e, typeFilter.value))
      then ServerError
      else
        var page := Listed(stored, typeFilter, occasionFilter, limit);
        Ok(Page(userId, |page|, page))
  }

  /** DELETE /history/:userId/:outfitId. */
  method Remove(store: HistoryStore, userId: string, outfitId: string) returns (r: Response<string>)
    requires store.Valid()
    modifies store
    ensures store.Valid() && store.custom == old(store.custom)
    ensures r == Ok(RemovedMessage) || r == NotFound(NoHistory) || r == NotFound(NotInHistory)
    ensures r == NotFound(NoHistory) <==> userId !in old(store.history)
    ensures userId !in old(store.history) ==> store.history == old(store.history)
    ensures userId in old(store.history) ==>
      store.history == old(store.history)[userId := WithoutId(old(store.history)[userId], outfitId)]
    ensures r.Ok? <==> userId in old(store.history) && exists e :: e in old(store.history)[userId] && HasId(e, outfitId)
    ensures r == NotFound(NotInHistory) ==> store.history == old(store.history)
    ensures r.Ok? ==> |store.history[userId]| < |old(store.history)[userId]|
  {
    if userId !in store.history {
      return NotFound(NoHistory);
    }
    var before := |store.history[userId]|;
    store.history := store.history[userId := WithoutId(store.history[userId], outfitId)];
    var removed := before - |store.history[userId]|;
    if removed == 0 {
      return NotFound(NotInHistory);
    }
    r := Ok(RemovedMessage);
  }

  /** DELETE /history/:userId: the user's history becomes empty, created when missing. */
  method Clear(store: HistoryStore, userId: string) returns (r: Response<string>)
    requires store.Valid()
    modifies store
    ensures store.Valid() && store.custom == old(store.custom)
    ensures r == Ok(ClearedMessage)
    ensures store.history == old(store.history)[userId := []]
    ensures userId in old(store.history) && old(store.history)[userId] == [] ==> store.history == old(store.history)
  {
    store.history := store.history[userId := []];
    r := Ok(ClearedMessage);
  }

  /** After a clear the user has a (empty) history, so a remove reports the outfit
      missing from it, not the history missing. */
  method ClearThenRemove(store: HistoryStore, userId: string, outfitId: string) returns (r: Response<string>)
    requires store.Valid()
    modifies store
    ensures store.Valid() && store.history == old(store.history)[userId := []]
    ensures r == NotFound(NotInHistory)
  {
    var cleared := Clear(store, userId);
    r := Remove(store, userId, outfitId);
  }
}
