/** The KV part of the combinator HTTP handlers: appending a KV entry to a
    user's combinator configuration and removing every entry with a given id.
    Loading the configuration and saving it back are inputs (`Result`,
    `Outcome`); a response records the HTTP status, the error text, the new
    id and the list handed to the save call. */
module CombinatorHandler {
  import opened Wrappers

  /** One KV store entry of a user's combinator configuration. */
  datatype KVItem = KVItem(id: string, kvType: string, url: string)

  /** The JSON body of a create request; both fields are required. */
  datatype KVRequest = KVRequest(kvType: string, url: string)

  /** `saved` is the list the handler asks to save, when it gets that far. */
  datatype Response = Response(status: int, error: Option<string>, id: Option<string>, saved: Option<seq<KVItem>>)

  /** A required field fails validation when it is empty. */
  predicate ValidRequest(req: KVRequest) {
    req.kvType != "" && req.url != ""
  }

  const ConfigFailurePrefix := "failed to get combinator config: "

  /** Stands for the validator's message on an empty required field, whose
      wording belongs to the HTTP framework. */
  const ValidationError := "required field missing"

  /** POST of a KV entry. `body` is the decoded request (Err when the JSON does
      not decode), `config` the user's loaded KV list, `newID` the freshly
      generated id and `save` the answer of the save call. */
  function CreateKV(body: Result<KVRequest>, config: Result<seq<KVItem>>, newID: string, save: Outcome): (r: Response)
    ensures r.status == 400 <==> body.Err? || !ValidRequest(body.value)
    ensures r.status == 500 <==> body.Ok? && ValidRequest(body.value) && config.Err?
    ensures r.status == 500 ==> r.error == Some(ConfigFailurePrefix + config.msg)
    ensures r.status in {200, 400, 500}
    ensures r.status != 200 ==> r.saved.None? && r.id.None? && r.error.Some?
    ensures r.status == 200 ==>
              && r.id == Some(newID)
              && r.saved == Some(config.value + [KVItem(newID, body.value.kvType, body.value.url)])
              && (r.error.Some? <==> save.Fails?)
  {
    if body.Err? then Response(400, Some(body.msg), None, None)
    else if !ValidRequest(body.value) then Response(400, Some(ValidationError), None, None)
    else if config.Err? then Response(500, Some(ConfigFailurePrefix + config.msg), None, None)
    else
      var newKV := KVItem(newID, body.value.kvType, body.value.url);
      var kvs := config.value + [newKV];
      if save.Fails? then
        Response(200, Some("KV created but failed to update config, err: " + save.msg), Some(newID), Some(kvs))
      else
        Response(200, None, Some(newID), Some(kvs))
  }

  /** Appending keeps every earlier entry in place and puts the new one last. */
  lemma CreateKVAppends(req: KVRequest, kvs: seq<KVItem>, newID: string, save: Outcome)
    requires ValidRequest(req)
    ensures var saved := CreateKV(Ok(req), Ok(kvs), newID, save).saved;
            && saved.Some?
            && |saved.value| == |kvs| + 1
            && saved.value[..|kvs|] == kvs
            && saved.value[|kvs|] == KVItem(newID, req.kvType, req.url)
  {
    var saved := CreateKV(Ok(req), Ok(kvs), newID, save).saved.value;
    assert saved[..|kvs|] == kvs;
  }

  // ---------------------------------------------------------------------------
  // Removal by id

  /** Reference definition: `s` without the entries whose id is `id`, in order. */
  function WithoutId(s: seq<KVItem>, id: string): (r: seq<KVItem>)
    ensures |r| <= |s|
    ensures forall k :: 0 <= k < |r| ==> r[k].id != id
    ensures forall x :: x in r ==> x in s
    ensures forall x :: x in s && x.id != id ==> x in r
    decreases |s|
  {
    if |s| == 0 then []
    else
      var init := WithoutId(s[..|s| - 1], id);
      var last := s[|s| - 1];
      assert forall x :: x in s ==> x in s[..|s| - 1] || x == last;
      if last.id == id then init else init + [last]
  }

  /** Filtering distributes over concatenation, which is why the kept entries
      stay in their original relative order. */
  lemma {:induction false} WithoutIdConcat(a: seq<KVItem>, b: seq<KVItem>, id: string)
    ensures WithoutId(a + b, id) == WithoutId(a, id) + WithoutId(b, id)
    decreases |b|
  {
    if |b| == 0 {
      assert a + b == a;
    } else {
      var b' := b[..|b| - 1];
      assert (a + b)[..|a + b| - 1] == a + b';
      WithoutIdConcat(a, b', id);
    }
  }

  /** When no entry carries `id`, nothing is removed. */
  lemma {:induction false} WithoutAbsentId(s: seq<KVItem>, id: string)
    requires forall k :: 0 <= k < |s| ==> s[k].id != id
    ensures WithoutId(s, id) == s
    decreases |s|
  {
    if |s| > 0 {
      WithoutAbsentId(s[..|s| - 1], id);
    }
  }

  /** The number of entries carrying `id`. */
  function CountId(s: seq<KVItem>, id: string): nat {
    if |s| == 0 then 0 else CountId(s[..|s| - 1], id) + (if s[|s| - 1].id == id then 1 else 0)
  }

  /** Every entry with the id goes, not only the first. */
  lemma {:induction false} WithoutIdRemovesAll(s: seq<KVItem>, id: string)
    ensures |WithoutId(s, id)| == |s| - CountId(s, id)
    ensures CountId(s, id) == 0 <==> forall k :: 0 <= k < |s| ==> s[k].id != id
    decreases |s|
  {
    if |s| > 0 {
      var init := s[..|s| - 1];
      WithoutIdRemovesAll(init, id);
      assert forall k :: 0 <= k < |init| ==> init[k] == s[k];
    }
  }

  /** The filter loop of the delete handler: keeps the entries whose id differs,
      in order, and notes whether any matched. */
  method RemoveById(kvs: seq<KVItem>, id: string) returns (kept: seq<KVItem>, found: bool)
    ensures kept == WithoutId(kvs, id)
    ensures found <==> exists k :: 0 <= k < |kvs| && kvs[k].id == id
  {
    kept := [];
    found := false;
    var i := 0;
    while i < |kvs|
      invariant 0 <= i <= |kvs|
      invariant kept == WithoutId(kvs[..i], id)
      invariant found <==> exists k :: 0 <= k < i && kvs[k].id == id
    {
      assert kvs[..i + 1][..i] == kvs[..i];
      if kvs[i].id == id {
        found := true;
      } else {
        kept := kept + [kvs[i]];
      }
      i := i + 1;
    }
    assert kvs[..i] == kvs;
  }

  /** DELETE of a KV entry by id: 404 with nothing saved when no entry has the
      id, otherwise every such entry is dropped and the rest saved. */
  method DeleteKV(config: Result<seq<KVItem>>, id: string, save: Outcome) returns (r: Response)
    ensures config.Err? ==> r == Response(500, Some(ConfigFailurePrefix + config.msg), None, None)
    ensures config.Ok? && (forall k :: 0 <= k < |config.value| ==> config.value[k].id != id) ==>
              r == Response(404, Some("not found this KV: " + id), None, None)
    ensures config.Ok? && (exists k :: 0 <= k < |config.value| && config.value[k].id == id) ==>
              && r.saved == Some(WithoutId(config.value, id))
              && r.status == (if save.Succeeds? then 200 else 500)
              && (r.error.None? <==> save.Succeeds?)
  {
    if config.Err? {
      return Response(500, Some(ConfigFailurePrefix + config.msg), None, None);
    }
    var kept, found := RemoveById(config.value, id);
    if !found {
      return Response(404, Some("not found this KV: " + id), None, None);
    }
    if save.Fails? {
      r := Response(500, Some("failed to update combinator config: " + save.msg), None, Some(kept));
    } else {
      r := Response(200, None, None, Some(kept));
    }
  }

  /** Deleting the entry just created, under a fresh id, gives back the list
      as it was before the create. */
  lemma CreateThenDeleteRestores(req: KVRequest, kvs: seq<KVItem>, newID: string)
    requires ValidRequest(req)
    requires forall k :: 0 <= k < |kvs| ==> kvs[k].id != newID
    ensures var saved := CreateKV(Ok(req), Ok(kvs), newID, Succeeds).saved.value;
            WithoutId(saved, newID) == kvs
  {
    var item := KVItem(newID, req.kvType, req.url);
    WithoutIdConcat(kvs, [item], newID);
    WithoutAbsentId(kvs, newID);
    assert WithoutId([item], newID) == [];
  }
}
