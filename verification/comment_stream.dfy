/**
 * The live-comment registry of server/src/routes/reviews.ts. `GET /:id/comments` keeps its
 * response open as a server-sent-event stream and files it under the raw `id` string; the
 * stream's `close` handler filters it out of that list again; `POST /:id/comments` writes one
 * event to every stream filed under the decimal rendering of `parseInt(id)`.
 *
 * Node runs each handler to completion and the broadcast loop has no `await`, so subscribing,
 * closing and publishing are atomic steps here.
 */
module CommentStream {
  import opened Outcomes
  import opened JsNumbers
  import opened Http

  /** An open event-stream response, numbered in the order the streams were opened. */
  type Handle = nat

  /** One `subscriber.write(...)` call. */
  datatype Write = Write(to: Handle, frame: string)

  /** An event with one data line, as section 9.2 of the WHATWG HTML Living Standard frames it. */
  function Frame(json: string): string {
    "data: " + json + "\n\n"
  }

  /** `subscribers[key]`, where an absent key behaves like an empty list. */
  function Listeners(subscribers: map<string, seq<Handle>>, key: string): seq<Handle> {
    if key in subscribers then subscribers[key] else []
  }

  predicate NoDuplicates(hs: seq<Handle>) {
    forall i, j :: 0 <= i < j < |hs| ==> hs[i] != hs[j]
  }

  /** `hs.filter((response) => response != h)` */
  function Without(hs: seq<Handle>, h: Handle): (r: seq<Handle>)
    ensures forall x :: x in r <==> x in hs && x != h
  {
    if hs == [] then []
    else
      var last := hs[|hs| - 1];
      Without(hs[..|hs| - 1], h) + (if last == h then [] else [last])
  }

  /** The registry once stream `h` is opened for `key`. */
  function Subscribed(subscribers: map<string, seq<Handle>>, key: string, h: Handle): map<string, seq<Handle>> {
    subscribers[key := Listeners(subscribers, key) + [h]]
  }

  /** The registry once stream `h`, filed under `key`, has closed; the key itself stays. */
  function Closed(subscribers: map<string, seq<Handle>>, key: string, h: Handle): map<string, seq<Handle>>
    requires key in subscribers
  {
    subscribers[key := Without(subscribers[key], h)]
  }

  /** The writes of one broadcast: the same frame to each listener, in list order. */
  function Broadcast(hs: seq<Handle>, frame: string): seq<Write> {
    if hs == [] then [] else Broadcast(hs[..|hs| - 1], frame) + [Write(hs[|hs| - 1], frame)]
  }

  /** The frames written to stream `h`, in the order they were written. */
  function Received(ws: seq<Write>, h: Handle): seq<string> {
    if ws == [] then []
    else
      var last := ws[|ws| - 1];
      Received(ws[..|ws| - 1], h) + (if last.to == h then [last.frame] else [])
  }

  /** The key a post to `rawId` looks up: the property key the number `parseInt(rawId)` stands for. */
  function PublishKey(rawId: string): (key: string)
    requires ParseInt(rawId).Some?
    ensures IsCanonicalDecimal(key)
  {
    DecimalString(ParseInt(rawId).value)
  }

  /**
   * The registry invariant: every stream ever opened has its captured key in the registry, each
   * stream is filed at most once, and only under the key its close handler captured.
   */
  ghost predicate Consistent(subscribers: map<string, seq<Handle>>, streamKey: seq<string>) {
    && (forall h: Handle :: h < |streamKey| ==> streamKey[h] in subscribers)
    && (forall key, i :: key in subscribers && 0 <= i < |subscribers[key]| ==>
          subscribers[key][i] < |streamKey| && streamKey[subscribers[key][i]] == key)
    && (forall key :: key in subscribers ==> NoDuplicates(subscribers[key]))
  }

  lemma {:induction false} WithoutKeepsNoDuplicates(hs: seq<Handle>, h: Handle)
    requires NoDuplicates(hs)
    ensures NoDuplicates(Without(hs, h))
  {
    if hs != [] {
      var init, last := hs[..|hs| - 1], hs[|hs| - 1];
      assert NoDuplicates(init);
      WithoutKeepsNoDuplicates(init, h);
      assert last !in init;
      assert last !in Without(init, h);
    }
  }

  lemma SubscribeKeepsConsistent(subscribers: map<string, seq<Handle>>, streamKey: seq<string>, key: string)
    requires Consistent(subscribers, streamKey)
    ensures Consistent(Subscribed(subscribers, key, |streamKey|), streamKey + [key])
  {
    var h := |streamKey|;
    var after := Subscribed(subscribers, key, h);
    var keys := streamKey + [key];
    var list := Listeners(subscribers, key);
    assert h !in list;
    assert NoDuplicates(list + [h]);
    forall k, i | k in after && 0 <= i < |after[k]|
      ensures after[k][i] < |keys| && keys[after[k][i]] == k
    {
      if k != key {
        assert after[k] == subscribers[k];
      } else if i < |list| {
        assert after[k][i] == list[i];
      }
    }
    forall k | k in after
      ensures NoDuplicates(after[k])
    {
      if k != key {
        assert after[k] == subscribers[k];
      }
    }
  }

  lemma CloseKeepsConsistent(subscribers: map<string, seq<Handle>>, streamKey: seq<string>, h: Handle)
    requires Consistent(subscribers, streamKey) && h < |streamKey|
    ensures Consistent(Closed(subscribers, streamKey[h], h), streamKey)
  {
    var key := streamKey[h];
    var after := Closed(subscribers, key, h);
    WithoutKeepsNoDuplicates(subscribers[key], h);
    forall k, i | k in after && 0 <= i < |after[k]|
      ensures after[k][i] < |streamKey| && streamKey[after[k][i]] == k
    {
      if k == key {
        assert after[k][i] in subscribers[key];
        var j :| 0 <= j < |subscribers[key]| && subscribers[key][j] == after[k][i];
      } else {
        assert after[k] == subscribers[k];
      }
    }
  }

  /** A stream that was not yet in the list and closes right away leaves the list as it was. */
  lemma {:induction false} WithoutAbsent(hs: seq<Handle>, h: Handle)
    requires h !in hs
    ensures Without(hs, h) == hs
  {
    if hs != [] {
      WithoutAbsent(hs[..|hs| - 1], h);
      assert hs[..|hs| - 1] + [hs[|hs| - 1]] == hs;
    }
  }

  lemma {:induction false} WithoutAppend(a: seq<Handle>, b: seq<Handle>, h: Handle)
    ensures Without(a + b, h) == Without(a, h) + Without(b, h)
  {
    if b != [] {
      var init := b[..|b| - 1];
      assert (a + b)[..|a + b| - 1] == a + init;
      WithoutAppend(a, init, h);
    } else {
      assert a + b == a;
    }
  }

  /** Closing a stream removes it and keeps the other streams of that review in their order. */
  lemma CloseKeepsOthersInOrder(before: seq<Handle>, after: seq<Handle>, h: Handle)
    requires h !in before && h !in after
    ensures Without(before + [h] + after, h) == before + after
  {
    var withH := before + [h];
    WithoutAppend(before, [h], h);
    WithoutAbsent(before, h);
    assert Without([h], h) == Without([], h) + [] by {
      assert [h][..0] == [];
    }
    assert Without(withH, h) == before;
    WithoutAppend(withH, after, h);
    WithoutAbsent(after, h);
  }

  /** Opening a stream and closing it again leaves the review's list as it was, but the key stays. */
  lemma CloseUndoesSubscribe(subscribers: map<string, seq<Handle>>, key: string, h: Handle)
    requires h !in Listeners(subscribers, key)
    ensures key in Subscribed(subscribers, key, h)
    ensures Closed(Subscribed(subscribers, key, h), key, h) == subscribers[key := Listeners(subscribers, key)]
  {
    var list := Listeners(subscribers, key);
    CloseKeepsOthersInOrder(list, [], h);
    assert list + [h] + [] == list + [h];
    assert list + [] == list;
  }

  lemma {:induction false} ReceivedAppend(a: seq<Write>, b: seq<Write>, h: Handle)
    ensures Received(a + b, h) == Received(a, h) + Received(b, h)
  {
    if b != [] {
      var init := b[..|b| - 1];
      assert (a + b)[..|a + b| - 1] == a + init;
      ReceivedAppend(a, init, h);
    } else {
      assert a + b == a;
    }
  }

  /** Dropping the last stream of a list without duplicates leaves a list without duplicates that lacks it. */
  lemma NoDuplicatesInit(hs: seq<Handle>)
    requires NoDuplicates(hs) && hs != []
    ensures NoDuplicates(hs[..|hs| - 1]) && hs[|hs| - 1] !in hs[..|hs| - 1]
  {
  }

  lemma MemberOfSnoc(hs: seq<Handle>, h: Handle)
    requires hs != []
    ensures h in hs <==> h in hs[..|hs| - 1] || h == hs[|hs| - 1]
  {
    assert hs == hs[..|hs| - 1] + [hs[|hs| - 1]];
  }

  lemma ReceivedSingle(w: Write, h: Handle)
    ensures Received([w], h) == if w.to == h then [w.frame] else []
  {
    assert [w][..0] == [];
  }

  /** A broadcast gives each listener exactly one frame and every other stream none. */
  lemma {:induction false} ReceivedBroadcast(hs: seq<Handle>, frame: string, h: Handle)
    requires NoDuplicates(hs)
    ensures Received(Broadcast(hs, frame), h) == if h in hs then [frame] else []
  {
    if hs != [] {
      var init, last := hs[..|hs| - 1], hs[|hs| - 1];
      NoDuplicatesInit(hs);
      ReceivedBroadcast(init, frame, h);
      ReceivedAppend(Broadcast(init, frame), [Write(last, frame)], h);
      ReceivedSingle(Write(last, frame), h);
      assert Broadcast(hs, frame) == Broadcast(init, frame) + [Write(last, frame)];
      MemberOfSnoc(hs, h);
    }
  }

  /** A post reaches an open stream exactly when the stream's raw id is the post's key. */
  lemma PostReachesExactly(subscribers: map<string, seq<Handle>>, streamKey: seq<string>, h: Handle, rawId: string)
    requires Consistent(subscribers, streamKey) && h < |streamKey|
    requires ParseInt(rawId).Some?
    ensures h in Listeners(subscribers, PublishKey(rawId))
        <==> h in subscribers[streamKey[h]] && streamKey[h] == PublishKey(rawId)
  {
  }

  /**
   * A stream opened on an id that is not the canonical rendering of a number, such as "042" or
   * "42abc", is never reached by any post, although a post to that same id is accepted.
   */
  lemma NonCanonicalIdNeverReached(subscribers: map<string, seq<Handle>>, streamKey: seq<string>, h: Handle, rawId: string)
    requires Consistent(subscribers, streamKey) && h < |streamKey|
    requires !IsCanonicalDecimal(streamKey[h])
    requires ParseInt(rawId).Some?
    ensures h !in Listeners(subscribers, PublishKey(rawId))
  {
  }

  lemma PaddedAndSuffixedIdsAreNotCanonical()
    ensures !IsCanonicalDecimal("042")
    ensures !IsCanonicalDecimal("42abc")
    ensures IsCanonicalDecimal("42")
  {
    assert Unsigned("42abc")[2] == 'a';
    assert "42"[0] != '-' && IsDecimalDigit("42"[0]) && IsDecimalDigit("42"[1]);
  }

  /** A stream opened on the canonical id of a review is reached by posts to that id. */
  lemma CanonicalIdIsItsOwnKey(n: int)
    ensures ParseInt(DecimalString(n)).Some?
    ensures PublishKey(DecimalString(n)) == DecimalString(n)
  {
    ParseIntOfDecimalString(n);
  }

  class Registry {
    /** The module-level `subscribers` object of reviews.ts. */
    var subscribers: map<string, seq<Handle>>
    /** `streamKey[h]`: the `reviewId` the close handler of stream `h` captured. */
    var streamKey: seq<string>
    /** Every frame written to any stream, in the order written. */
    var writes: seq<Write>

    ghost predicate Valid()
      reads this
    {
      Consistent(subscribers, streamKey)
    }

    constructor ()
      ensures Valid()
      ensures subscribers == map[] && streamKey == [] && writes == []
    {
      subscribers, streamKey, writes := map[], [], [];
    }

    /** Files a new stream for `reviewId`: a first stream creates the list, later ones go at its end. */
    method Subscribe(reviewId: string) returns (h: Handle)
      requires Valid()
      modifies this
      ensures Valid()
      ensures h == |old(streamKey)| && streamKey == old(streamKey) + [reviewId]
      ensures subscribers == Subscribed(old(subscribers), reviewId, h)
      ensures writes == old(writes)
    {
      h := |streamKey|;
      SubscribeKeepsConsistent(subscribers, streamKey, reviewId);
      if reviewId !in subscribers {
        assert Listeners(subscribers, reviewId) + [h] == [h];
        subscribers := subscribers[reviewId := [h]];
      } else {
        subscribers := subscribers[reviewId := subscribers[reviewId] + [h]];
      }
      streamKey := streamKey + [reviewId];
    }

    /** The `close` handler of stream `h`: filters it out of the list it was filed in. */
    method Close(h: Handle)
      requires Valid() && h < |streamKey|
      modifies this
      ensures Valid()
      ensures streamKey == old(streamKey) && writes == old(writes)
      ensures subscribers == Closed(old(subscribers), old(streamKey)[h], h)
      ensures h !in subscribers[streamKey[h]]
    {
      var key := streamKey[h];
      CloseKeepsConsistent(subscribers, streamKey, h);
      subscribers := subscribers[key := Without(subscribers[key], h)];
    }

    /** Writes one event frame to each stream filed under `key`, in list order; the registry is left alone. */
    method Publish(key: string, json: string)
      requires Valid()
      modifies this`writes
      ensures Valid()
      ensures writes == old(writes) + Broadcast(Listeners(subscribers, key), Frame(json))
      ensures forall h: Handle ::
        Received(writes, h) == Received(old(writes), h) + (if h in Listeners(subscribers, key) then [Frame(json)] else [])
    {
      var listeners := Listeners(subscribers, key);
      var frame := Frame(json);
      var i := 0;
      while i < |listeners|
        invariant 0 <= i <= |listeners|
        invariant writes == old(writes) + Broadcast(listeners[..i], frame)
      {
        assert listeners[..i + 1][..i] == listeners[..i];
        writes := writes + [Write(listeners[i], frame)];
        i := i + 1;
      }
      assert listeners[..i] == listeners;
      forall h: Handle
        ensures Received(writes, h) == Received(old(writes), h) + (if h in listeners then [frame] else [])
      {
        ReceivedAppend(old(writes), Broadcast(listeners, frame), h);
        ReceivedBroadcast(listeners, frame, h);
      }
    }

    /** `GET /:id/comments`: 400 for an id `parseInt` rejects, otherwise a new stream filed under the raw id. */
    method OpenStream(rawId: string) returns (r: Result<Handle, Reply>)
      requires Valid()
      modifies this
      ensures Valid()
      ensures ParseInt(rawId).None? ==> r == Err(SendStatus(BAD_REQUEST)) && unchanged(this)
      ensures ParseInt(rawId).Some? ==>
        && r.Ok? && r.value == |old(streamKey)|
        && subscribers == Subscribed(old(subscribers), rawId, r.value)
        && streamKey == old(streamKey) + [rawId] && writes == old(writes)
    {
      if ParseInt(rawId).None? {
        return Err(SendStatus(BAD_REQUEST));
      }
      var h := Subscribe(rawId);
      r := Ok(h);
    }

    /** `POST /:id/comments` once the comment is stored: broadcast its JSON under `parseInt(id)`, answer 200. */
    method PostComment(rawId: string, json: string) returns (reply: Reply)
      requires Valid()
      modifies this`writes
      ensures Valid()
      ensures ParseInt(rawId).None? ==> reply == SendStatus(BAD_REQUEST) && writes == old(writes)
      ensures ParseInt(rawId).Some? ==>
        && reply == SendStatus(OK)
        && writes == old(writes) + Broadcast(Listeners(subscribers, PublishKey(rawId)), Frame(json))
    {
      if ParseInt(rawId).None? {
        return SendStatus(BAD_REQUEST);
      }
      Publish(PublishKey(rawId), json);
      reply := SendStatus(OK);
    }
  }
}
