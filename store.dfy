/**
 * The in-memory entity store (`AppState`) and the six CRUD handlers that
 * read and change it. Each handler is one sequential step on the maps; the
 * fresh id (`Uuid::new_v4()`) and the clock readings (`Utc::now()`) are
 * parameters: `now` for the entity timestamps a handler writes and `stamp`
 * for the timestamp `ok_response` puts in the envelope.
 */
module Store {
  import opened Wrappers
  import opened Entities
  import opened Envelope

  const UserCreated := "用户创建成功"
  const UserFetched := "获取用户信息成功"
  const BiographyCreated := "传记项目创建成功"
  const BiographiesListed := "获取传记项目列表成功"
  const BiographyFetched := "获取传记项目成功"
  const BiographyUpdated := "传记项目更新成功"

  /** The query parameter that names the owner when listing biographies. */
  const UserIdParam := "user_id"

  /** The patch `update_biography` applies to the entry it locks. */
  function ApplyUpdate(b: Biography, patch: UpdateBiographyRequest, now: Timestamp): (r: Biography)
    ensures r.id == b.id && r.userId == b.userId
    ensures r.status == b.status && r.createdAt == b.createdAt
    ensures r.updatedAt == now
    ensures patch.title.Some? ==> r.title == patch.title.value
    ensures patch.title.None? ==> r.title == b.title
    ensures patch.description.Some? ==> r.description == patch.description
    ensures patch.description.None? ==> r.description == b.description
    ensures b.description.Some? ==> r.description.Some?
    ensures patch.content.Some? ==> r.content == patch.content.value
    ensures patch.content.None? ==> r.content == b.content
  {
    b.(title := patch.title.GetOr(b.title),
       description := if patch.description.Some? then patch.description else b.description,
       content := patch.content.GetOr(b.content),
       updatedAt := now)
  }

  /** The single patch equivalent to `first` followed by `second`. */
  function Merge(first: UpdateBiographyRequest, second: UpdateBiographyRequest): UpdateBiographyRequest
  {
    UpdateBiographyRequest(
      if second.title.Some? then second.title else first.title,
      if second.description.Some? then second.description else first.description,
      if second.content.Some? then second.content else first.content)
  }

  /** Two successive updates of one entry: the later writer wins field by field. */
  lemma UpdatesCompose(b: Biography, first: UpdateBiographyRequest, second: UpdateBiographyRequest,
                       t1: Timestamp, t2: Timestamp)
    ensures ApplyUpdate(ApplyUpdate(b, first, t1), second, t2) == ApplyUpdate(b, Merge(first, second), t2)
  {
  }

  /** The ids of the stored biographies that `uid` owns. */
  function OwnedIds(bios: map<string, Biography>, uid: string): set<string>
  {
    set k | k in bios && bios[k].userId == uid
  }

  /** The ids occurring in a list of biographies. */
  function Ids(list: seq<Biography>): set<string>
  {
    set b | b in list :: b.id
  }

  /** No biography id occurs twice in `list`. */
  predicate DistinctIds(list: seq<Biography>)
  {
    forall i, j :: 0 <= i < j < |list| ==> list[i].id != list[j].id
  }

  /** A list without repeated ids has one id per element. */
  lemma {:induction false} DistinctIdsCount(list: seq<Biography>)
    requires DistinctIds(list)
    ensures |Ids(list)| == |list|
  {
    if list != [] {
      var rest := list[1..];
      assert DistinctIds(rest) by {
        forall i, j | 0 <= i < j < |rest| ensures rest[i].id != rest[j].id {
          assert rest[i] == list[i + 1] && rest[j] == list[j + 1];
        }
      }
      DistinctIdsCount(rest);
      assert Ids(list) == {list[0].id} + Ids(rest) by {
        assert list == [list[0]] + rest;
      }
      assert list[0].id !in Ids(rest) by {
        forall b | b in rest ensures b.id != list[0].id {
          var j :| 0 <= j < |rest| && rest[j] == b;
          assert list[j + 1] == b;
        }
      }
    }
  }

  /** Appending a biography whose id is not yet listed keeps the ids distinct. */
  lemma AppendFresh(list: seq<Biography>, b: Biography)
    requires DistinctIds(list) && b.id !in Ids(list)
    ensures DistinctIds(list + [b]) && Ids(list + [b]) == Ids(list) + {b.id}
  {
  }

  /**
   * The state of the scan in `list_biographies`: `found` holds, once each,
   * the stored biographies of `uid` among the keys already visited.
   */
  predicate Scanned(bios: map<string, Biography>, uid: string, todo: set<string>, found: seq<Biography>)
  {
    todo <= bios.Keys &&
    Ids(found) == OwnedIds(bios, uid) - todo &&
    DistinctIds(found) &&
    forall b :: b in found ==> b.id in bios && bios[b.id] == b
  }

  /** Visiting one more key of a map keyed by id keeps the scan consistent. */
  lemma ScanStep(bios: map<string, Biography>, uid: string, todo: set<string>, found: seq<Biography>, k: string)
    requires forall j :: j in bios ==> bios[j].id == j
    requires Scanned(bios, uid, todo, found) && k in todo
    ensures Scanned(bios, uid, todo - {k}, if bios[k].userId == uid then found + [bios[k]] else found)
  {
    if bios[k].userId == uid {
      AppendFresh(found, bios[k]);
    }
  }

  /** Inserting a new biography adds its id to its owner's ids and no one else's. */
  lemma OwnedAfterInsert(bios: map<string, Biography>, k: string, b: Biography, uid: string)
    requires k !in bios
    ensures OwnedIds(bios[k := b], uid) == if b.userId == uid then OwnedIds(bios, uid) + {k} else OwnedIds(bios, uid)
  {
  }

  /** Updating a biography never moves it to another owner. */
  lemma OwnedAfterUpdate(bios: map<string, Biography>, k: string, patch: UpdateBiographyRequest,
                         now: Timestamp, uid: string)
    requires k in bios
    ensures OwnedIds(bios[k := ApplyUpdate(bios[k], patch, now)], uid) == OwnedIds(bios, uid)
  {
  }

  /** The fields no handler changes once a biography exists. */
  predicate SameIdentity(before: Biography, after: Biography)
  {
    after.id == before.id && after.userId == before.userId &&
    after.status == before.status && after.createdAt == before.createdAt
  }

  /** `after` keeps every entry of `before`, each with its identity and status. */
  predicate Evolves(before: map<string, Biography>, after: map<string, Biography>)
  {
    forall k :: k in before ==> k in after && SameIdentity(before[k], after[k])
  }

  /** `Evolves` composes, so it holds across any sequence of handlers. */
  lemma EvolvesTransitive(a: map<string, Biography>, b: map<string, Biography>, c: map<string, Biography>)
    requires Evolves(a, b) && Evolves(b, c)
    ensures Evolves(a, c)
  {
  }

  /** The three maps of `AppState`, each keyed by the id of its entries. */
  class AppState {
    var users: map<string, User>
    var biographies: map<string, Biography>
    /** Allocated for interface parity; no handler reads or writes it. */
    var sessions: map<string, Session>

    /**
     * Every entry is stored under its own id, and every biography's owner
     * is a stored user: checked when the biography is created and kept
     * because nothing is ever deleted.
     */
    ghost predicate Valid()
      reads this
    {
      (forall k :: k in users ==> users[k].id == k) &&
      (forall k :: k in biographies ==> biographies[k].id == k && biographies[k].userId in users)
    }

    constructor ()
      ensures Valid()
      ensures users == map[] && biographies == map[] && sessions == map[]
    {
      users := map[];
      biographies := map[];
      sessions := map[];
    }

    /** `create_user`: always succeeds and stores exactly one new user. */
    method CreateUser(payload: CreateUserRequest, freshId: string, now: Timestamp, stamp: Timestamp)
      returns (r: HandlerResult<User>)
      requires Valid()
      requires freshId !in users
      modifies this
      ensures Valid()
      ensures r.Success? && r.value.success && r.value.data.Some?
      ensures r.value.message == UserCreated && r.value.timestamp == stamp
      ensures var u := r.value.data.value;
        u.id == freshId && u.openid == payload.openid && u.nickname == payload.nickname &&
        u.avatar == payload.avatar && u.createdAt == now && u.updatedAt == now
      ensures users == old(users)[freshId := r.value.data.value]
      ensures |users| == |old(users)| + 1
      ensures forall t :: GetUser(freshId, t).Success? && GetUser(freshId, t).value.data == r.value.data
      ensures biographies == old(biographies) && sessions == old(sessions)
    {
      var user := User(freshId, payload.openid, payload.nickname, payload.avatar, now, now);
      users := users[freshId := user];
      r := Success(OkResponse(user, UserCreated, stamp));
    }

    /** `get_user`: the stored user, or `NotFound` exactly when the id is not a key. */
    function GetUser(id: string, stamp: Timestamp): (r: HandlerResult<User>)
      reads this
      ensures r.Success? <==> id in users
      ensures r.Success? ==> r.value.success && r.value.data == Some(users[id])
      ensures r.Success? ==> r.value.message == UserFetched && r.value.timestamp == stamp
      ensures r.Failure? ==> r.error == NotFound
    {
      if id in users then Success(OkResponse(users[id], UserFetched, stamp)) else Failure(NotFound)
    }

    /**
     * `create_biography`: `BadRequest` when the owner is not a stored user;
     * otherwise a new draft with empty content under the fresh id.
     */
    method CreateBiography(payload: CreateBiographyRequest, freshId: string, now: Timestamp, stamp: Timestamp)
      returns (r: HandlerResult<Biography>)
      requires Valid()
      requires freshId !in biographies
      modifies this
      ensures Valid()
      ensures users == old(users) && sessions == old(sessions)
      ensures r.Failure? <==> payload.userId !in users
      ensures r.Failure? ==> r.error == BadRequest && biographies == old(biographies)
      ensures r.Success? ==> r.value.success && r.value.data.Some?
      ensures r.Success? ==> r.value.message == BiographyCreated && r.value.timestamp == stamp
      ensures r.Success? ==> var b := r.value.data.value;
        b.id == freshId && b.userId == payload.userId && b.title == payload.title &&
        b.description == payload.description && b.content == "" && b.status == Draft &&
        b.createdAt == now && b.updatedAt == now &&
        biographies == old(biographies)[freshId := b]
      ensures r.Success? ==>
        OwnedIds(biographies, payload.userId) == OwnedIds(old(biographies), payload.userId) + {freshId}
      ensures forall uid :: uid != payload.userId ==> OwnedIds(biographies, uid) == OwnedIds(old(biographies), uid)
      ensures Evolves(old(biographies), biographies)
    {
      if payload.userId !in users {
        return Failure(BadRequest);
      }
      var biography := Biography(freshId, payload.userId, payload.title, payload.description, "", Draft, now, now);
      ghost var before := biographies;
      biographies := biographies[freshId := biography];
      forall uid ensures OwnedIds(biographies, uid) ==
        if uid == payload.userId then OwnedIds(before, uid) + {freshId} else OwnedIds(before, uid)
      {
        OwnedAfterInsert(before, freshId, biography, uid);
      }
      r := Success(OkResponse(biography, BiographyCreated, stamp));
    }

    /**
     * `list_biographies`: `BadRequest` without a `user_id` parameter;
     * otherwise each stored biography of that user exactly once, in an
     * order the model leaves open (the map is walked in no fixed order).
     */
    method ListBiographies(params: map<string, string>, stamp: Timestamp)
      returns (r: HandlerResult<seq<Biography>>)
      requires Valid()
      ensures r.Failure? <==> UserIdParam !in params
      ensures r.Failure? ==> r.error == BadRequest
      ensures r.Success? ==> r.value.success && r.value.data.Some?
      ensures r.Success? ==> r.value.message == BiographiesListed && r.value.timestamp == stamp
      ensures r.Success? ==> var list := r.value.data.value;
        Ids(list) == OwnedIds(biographies, params[UserIdParam]) && DistinctIds(list) &&
        |list| == |OwnedIds(biographies, params[UserIdParam])| &&
        forall b :: b in list ==> b.id in biographies && biographies[b.id] == b
    {
      if UserIdParam !in params {
        return Failure(BadRequest);
      }
      var uid := params[UserIdParam];
      var found: seq<Biography> := [];
      var todo := biographies.Keys;
      while todo != {}
        invariant Scanned(biographies, uid, todo, found)
        decreases todo
      {
        var k :| k in todo;
        ScanStep(biographies, uid, todo, found, k);
        if biographies[k].userId == uid {
          found := found + [biographies[k]];
        }
        todo := todo - {k};
      }
      DistinctIdsCount(found);
      r := Success(OkResponse(found, BiographiesListed, stamp));
    }

    /** `get_biography`: the stored biography, or `NotFound` exactly when the id is not a key. */
    function GetBiography(id: string, stamp: Timestamp): (r: HandlerResult<Biography>)
      reads this
      ensures r.Success? <==> id in biographies
      ensures r.Success? ==> r.value.success && r.value.data == Some(biographies[id])
      ensures r.Success? ==> r.value.message == BiographyFetched && r.value.timestamp == stamp
      ensures r.Failure? ==> r.error == NotFound
    {
      if id in biographies then Success(OkResponse(biographies[id], BiographyFetched, stamp)) else Failure(NotFound)
    }

    /**
     * `update_biography`: `NotFound` and no change when the id is absent;
     * otherwise the entry is patched in place and a copy returned.
     */
    method UpdateBiography(id: string, payload: UpdateBiographyRequest, now: Timestamp, stamp: Timestamp)
      returns (r: HandlerResult<Biography>)
      requires Valid()
      modifies this
      ensures Valid()
      ensures users == old(users) && sessions == old(sessions)
      ensures r.Failure? <==> id !in old(biographies)
      ensures r.Failure? ==> r.error == NotFound && biographies == old(biographies)
      ensures r.Success? ==>
        biographies == old(biographies)[id := ApplyUpdate(old(biographies)[id], payload, now)]
      ensures r.Success? ==> r.value.success && r.value.data == Some(biographies[id])
      ensures r.Success? ==> r.value.message == BiographyUpdated && r.value.timestamp == stamp
      ensures forall uid :: OwnedIds(biographies, uid) == OwnedIds(old(biographies), uid)
      ensures Evolves(old(biographies), biographies)
    {
      if id !in biographies {
        return Failure(NotFound);
      }
      var b := biographies[id];
      if payload.title.Some? {
        b := b.(title := payload.title.value);
      }
      if payload.description.Some? {
        b := b.(description := Some(payload.description.value));
      }
      if payload.content.Some? {
        b := b.(content := payload.content.value);
      }
      b := b.(updatedAt := now);
      ghost var before := biographies;
      biographies := biographies[id := b];
      forall uid ensures OwnedIds(biographies, uid) == OwnedIds(before, uid) {
        OwnedAfterUpdate(before, id, payload, now, uid);
      }
      r := Success(OkResponse(b, BiographyUpdated, stamp));
    }
  }

  /** A client run: create, update, read back and list one biography. */
  method LifeStoryScenario()
  {
    var state := new AppState();
    var user := state.CreateUser(CreateUserRequest("openid-1", "Ann", None), "u1", 1, 1);
    var created := state.CreateBiography(CreateBiographyRequest("u1", "Life", None), "b1", 2, 2);
    assert created.Success?;
    assert created.value.data.value.status == Draft && created.value.data.value.content == "";
    var updated := state.UpdateBiography("b1", UpdateBiographyRequest(None, None, Some("chapter one")), 3, 3);
    var fetched := state.GetBiography("b1", 4);
    assert fetched.value.data.value.content == "chapter one";
    assert fetched.value.data.value.title == "Life";
    var listed := state.ListBiographies(map[UserIdParam := "u1"], 5);
    assert OwnedIds(state.biographies, "u1") == {"b1"};
    assert |listed.value.data.value| == 1;
    assert listed.value.data.value[0] == fetched.value.data.value;
    var missing := state.GetBiography("b2", 6);
    assert missing == Failure(NotFound);
    var orphan := state.CreateBiography(CreateBiographyRequest("u2", "Other", None), "b2", 7, 7);
    assert orphan == Failure(BadRequest);
  }
}
