/**
 * `ModelsManager`: the cached list of models offered by the API and the
 * current-model setting kept in `bot_settings`.
 */
module Models {
  import opened Wrappers
  import Text
  import Db

  /** The model used when none is stored, and the one a failing model is reset to. */
  const DefaultModel: string := "gpt-4o-mini"

  /** `_cache_ttl`: seconds a fetched list stays valid. */
  const CacheTtl: real := 3600.0

  /** A model as `client.models.list()` reports it; `created` may be missing. */
  datatype ApiModel = ApiModel(id: string, created: Option<int>)

  /** One entry of the list handed to the bot: `{'id', 'name', 'created'}`. */
  datatype ModelInfo = ModelInfo(id: string, name: string, created: int)

  /** What `client.models.list()` gave: the models, or an exception. */
  datatype ListOutcome = Listed(data: seq<ApiModel>) | ListFailed

  // ----- the current-model setting -------------------------------------------------

  /** `get_current_model` on the settings table. */
  function CurrentModelIn(settings: map<string, string>): (model: string)
    ensures "current_model" in settings ==> model == settings["current_model"]
    ensures "current_model" !in settings ==> model == DefaultModel
  {
    if "current_model" in settings then settings["current_model"] else DefaultModel
  }

  /** `get_current_model`. */
  function GetCurrentModel(db: Db.Database): string
    reads db
  {
    CurrentModelIn(db.botSettings)
  }

  /** `set_current_model`: replaces the one settings row; nothing else changes. */
  method SetCurrentModel(db: Db.Database, model: string)
    modifies db`botSettings
    ensures db.botSettings == old(db.botSettings)["current_model" := model]
    ensures GetCurrentModel(db) == model
  {
    db.botSettings := db.botSettings["current_model" := model];
  }

  /** After `set_current_model(m)` the current model is `m` and every other setting is kept. */
  lemma SetThenGet(settings: map<string, string>, model: string, key: string)
    ensures CurrentModelIn(settings["current_model" := model]) == model
    ensures key != "current_model" ==> (key in settings <==> key in settings["current_model" := model])
    ensures key != "current_model" && key in settings ==> settings["current_model" := model][key] == settings[key]
  {
  }

  // ----- sorting by `created`, newest first ------------------------------------------

  predicate SortedByCreatedDesc(s: seq<ModelInfo>) {
    forall i, j :: 0 <= i < j < |s| ==> s[i].created >= s[j].created
  }

  /** The entries whose `created` is `k`, in their order. */
  function WithCreated(s: seq<ModelInfo>, k: int): seq<ModelInfo> {
    if s == [] then [] else (if s[0].created == k then [s[0]] else []) + WithCreated(s[1..], k)
  }

  lemma {:induction false} WithCreatedAppend(a: seq<ModelInfo>, b: seq<ModelInfo>, k: int)
    ensures WithCreated(a + b, k) == WithCreated(a, k) + WithCreated(b, k)
  {
    if a == [] {
      assert a + b == b;
    } else {
      WithCreatedAppend(a[1..], b, k);
      assert (a + b)[1..] == a[1..] + b;
    }
  }

  /** Puts `x` after the entries strictly newer than it and before all others. */
  function InsertByCreated(x: ModelInfo, s: seq<ModelInfo>): (r: seq<ModelInfo>)
    ensures |r| == |s| + 1
  {
    if s == [] || s[0].created <= x.created then [x] + s else [s[0]] + InsertByCreated(x, s[1..])
  }

  lemma {:induction false} InsertSorted(x: ModelInfo, s: seq<ModelInfo>)
    requires SortedByCreatedDesc(s)
    ensures SortedByCreatedDesc(InsertByCreated(x, s))
    ensures forall i :: 0 <= i < |s| + 1 ==> InsertByCreated(x, s)[i] in s || InsertByCreated(x, s)[i] == x
  {
    if s != [] && s[0].created > x.created {
      InsertSorted(x, s[1..]);
      var t := InsertByCreated(x, s[1..]);
      assert forall i :: 0 <= i < |t| ==> t[i].created <= s[0].created by {
        forall i | 0 <= i < |t| ensures t[i].created <= s[0].created {
          assert t[i] in s[1..] || t[i] == x;
        }
      }
    }
  }

  lemma {:induction false} InsertKeepsGroups(x: ModelInfo, s: seq<ModelInfo>, k: int)
    requires SortedByCreatedDesc(s)
    ensures WithCreated(InsertByCreated(x, s), k) == (if x.created == k then [x] else []) + WithCreated(s, k)
  {
    var r := InsertByCreated(x, s);
    if s == [] || s[0].created <= x.created {
      assert r == [x] + s;
      WithCreatedAppend([x], s, k);
      assert WithCreated([x], k) == (if x.created == k then [x] else []) + WithCreated([], k);
    } else {
      var t := InsertByCreated(x, s[1..]);
      assert r == [s[0]] + t;
      InsertKeepsGroups(x, s[1..], k);
      WithCreatedAppend([s[0]], t, k);
      WithCreatedAppend([s[0]], s[1..], k);
      assert s == [s[0]] + s[1..];
      var h := WithCreated([s[0]], k);
      assert h == (if s[0].created == k then [s[0]] else []) + WithCreated([], k);
      if x.created == k {
        assert h == [];
      }
    }
  }

  /** Python's stable `sort(key=lambda m: -m['created'])`, also `sort(key=created, reverse=True)`. */
  function SortByCreatedDesc(s: seq<ModelInfo>): (r: seq<ModelInfo>)
    ensures SortedByCreatedDesc(r)
    ensures |r| == |s|
    ensures forall k :: WithCreated(r, k) == WithCreated(s, k)
  {
    if s == [] then []
    else
      var rest := SortByCreatedDesc(s[1..]);
      InsertSorted(s[0], rest);
      forall k ensures WithCreated(InsertByCreated(s[0], rest), k) == WithCreated(s, k) {
        InsertKeepsGroups(s[0], rest, k);
      }
      InsertByCreated(s[0], rest)
  }

  /** Keeping every group of equal `created` in order keeps the whole multiset. */
  lemma {:induction false} SameGroupsSameMultiset(a: seq<ModelInfo>, b: seq<ModelInfo>, m: ModelInfo)
    requires WithCreated(a, m.created) == WithCreated(b, m.created)
    ensures multiset(a)[m] == multiset(b)[m]
  {
    CountInGroup(a, m);
    CountInGroup(b, m);
  }

  lemma {:induction false} CountInGroup(s: seq<ModelInfo>, m: ModelInfo)
    ensures multiset(s)[m] == multiset(WithCreated(s, m.created))[m]
  {
    if s != [] {
      CountInGroup(s[1..], m);
      assert s == [s[0]] + s[1..];
    }
  }

  /** The sorted list is a permutation of its input. */
  lemma SortIsPermutation(s: seq<ModelInfo>)
    ensures multiset(SortByCreatedDesc(s)) == multiset(s)
  {
    var r := SortByCreatedDesc(s);
    forall m ensures multiset(r)[m] == multiset(s)[m] {
      SameGroupsSameMultiset(r, s, m);
    }
  }

  // ----- fetching and caching ------------------------------------------------------

  /** The two models returned when listing fails. */
  const FallbackModels: seq<ModelInfo> := [ModelInfo("gpt-4o-mini", "gpt-4o-mini", 0), ModelInfo("gpt-4o", "gpt-4o", 0)]

  /** One entry per listed model, in the API's order. */
  function ToModelInfos(data: seq<ApiModel>): (r: seq<ModelInfo>)
    ensures |r| == |data|
    ensures forall i :: 0 <= i < |data| ==> r[i] == ModelInfo(data[i].id, data[i].id, data[i].created.GetOr(0))
  {
    seq(|data|, i requires 0 <= i < |data| => ModelInfo(data[i].id, data[i].id, data[i].created.GetOr(0)))
  }

  /** What `_fetch_models_from_api` returns for a listing outcome. */
  function FetchedModels(outcome: ListOutcome): seq<ModelInfo> {
    match outcome
    case ListFailed => FallbackModels
    case Listed(data) => SortByCreatedDesc(ToModelInfos(data))
  }

  /** `_fetch_models_from_api`: every listed model, newest first, equal dates in API order;
      the two defaults when listing fails. */
  method FetchModelsFromApi(outcome: ListOutcome) returns (models: seq<ModelInfo>)
    ensures outcome.ListFailed? ==> models == FallbackModels
    ensures outcome.Listed? ==> |models| == |outcome.data| && SortedByCreatedDesc(models)
    ensures outcome.Listed? ==> forall k :: WithCreated(models, k) == WithCreated(ToModelInfos(outcome.data), k)
    ensures models == FetchedModels(outcome)
  {
    match outcome {
      case ListFailed =>
        models := FallbackModels;
      case Listed(data) =>
        var chatModels: seq<ModelInfo> := [];
        var i := 0;
        while i < |data|
          invariant 0 <= i <= |data|
          invariant chatModels == ToModelInfos(data)[..i]
        {
          chatModels := chatModels + [ModelInfo(data[i].id, data[i].id, data[i].created.GetOr(0))];
          i := i + 1;
        }
        assert chatModels == ToModelInfos(data);
        models := SortByCreatedDesc(chatModels);
    }
  }

  /** `ModelsManager`'s class-level cache. */
  class ModelsManager {
    var modelsCache: seq<ModelInfo>
    var cacheTimestamp: real

    constructor ()
      ensures modelsCache == [] && cacheTimestamp == 0.0
    {
      modelsCache, cacheTimestamp := [], 0.0;
    }

    /** The cached list may be served at time `now`. */
    predicate CacheFresh(now: real)
      reads this
    {
      now - cacheTimestamp < CacheTtl && modelsCache != []
    }

    /** `get_available_models` at time `now`; `outcome` is what listing would give. */
    method GetAvailableModels(now: real, outcome: ListOutcome) returns (models: seq<ModelInfo>)
      modifies this
      ensures old(CacheFresh(now)) ==> models == old(modelsCache) && unchanged(this)
      ensures !old(CacheFresh(now)) ==> models == FetchedModels(outcome) && modelsCache == models && cacheTimestamp == now
    {
      if now - cacheTimestamp < CacheTtl && modelsCache != [] {
        return modelsCache;
      }
      models := FetchModelsFromApi(outcome);
      modelsCache := models;
      cacheTimestamp := now;
    }
  }

  /** A second call within the hour returns the first call's non-empty list without listing again,
      whatever listing would give by then; the failure fallback is cached like any list. */
  method CachedWithinTtl(m: ModelsManager, now: real, later: real, first: ListOutcome, second: ListOutcome)
    returns (a: seq<ModelInfo>, b: seq<ModelInfo>)
    requires m.modelsCache == [] && now <= later < now + CacheTtl
    modifies m
    ensures a != [] ==> b == a
    ensures first.ListFailed? ==> a == FallbackModels && b == FallbackModels
  {
    a := m.GetAvailableModels(now, first);
    b := m.GetAvailableModels(later, second);
  }
}
