/** The mail side (src/gmail.ts): the shape checks on Gmail API responses and
    the part of `getMessages` that decides which listed messages are fetched —
    validate the listing, sort it by thread, and keep the first twenty
    messages plus the rest of the thread the twentieth belongs to. */
module Gmail {
  import opened Strings
  import opened Js

  /** At most this many messages are taken on, unless a thread runs past it. */
  const MaxMessages: nat := 20

  const NotIterableMessage := "Messages from Gmail were not iterable gmail messages. See log."

  // ---------------------------------------------------------------------------
  // Shape checks
  // ---------------------------------------------------------------------------

  /** `typeof data === 'object' && data !== null`. */
  predicate IsNonNullObject(data: Json)
  {
    TypeOf(data) == "object" && data != JNull
  }

  /** `isGmailMessage`. */
  predicate IsGmailMessage(data: Json)
  {
    IsNonNullObject(data)
    && TypeOf(Member(data, "id")) == "string"
    && TypeOf(Member(data, "snippet")) == "string"
    && TypeOf(Member(data, "threadId")) == "string"
  }

  /** A full message is an object whose id, snippet and thread id are all
      strings, and nothing else passes. */
  lemma GmailMessageShape(data: Json)
    ensures IsGmailMessage(data) <==>
      && data.JObj?
      && "id" in data.fields && data.fields["id"].JStr?
      && "snippet" in data.fields && data.fields["snippet"].JStr?
      && "threadId" in data.fields && data.fields["threadId"].JStr?
  {
  }

  /** The callback given to `every`: a listed message has a string id and a
      string thread id. */
  predicate HasIds(message: Json)
  {
    TypeOf(Member(message, "id")) == "string" && TypeOf(Member(message, "threadId")) == "string"
  }

  /** `messages.every(...)`: stops at the first message that fails the
      callback; reading `message.id` on a null or undefined entry throws. */
  function EveryHasIds(messages: seq<Json>): (r: Completion<bool>)
    ensures r == Normal(true) ==> forall i :: 0 <= i < |messages| ==> HasIds(messages[i])
  {
    if messages == [] then Normal(true)
    else if IsNullish(messages[0]) then Throw(TypeError)
    else if !HasIds(messages[0]) then Normal(false)
    else EveryHasIds(messages[1..])
  }

  /** `isGmailListMessages`; it throws when the callback of `every` reaches a
      null or undefined entry before any entry that fails it. */
  function IsGmailListMessages(data: Json): Completion<bool>
  {
    if !IsNonNullObject(data) then Normal(false)
    else
      var messages := Member(data, "messages");
      if !messages.JArr? then Normal(false)
      else
        match EveryHasIds(messages.items)
        case Throw(e) => Throw(e)
        case Normal(false) => Normal(false)
        case Normal(true) =>
          Normal((Member(data, "nextPageToken") == JUndef || Member(data, "nextPageToken").JStr?)
                 && (Member(data, "resultSizeEstimate") == JUndef || Member(data, "resultSizeEstimate").JNum?))
  }

  /** A listing passes exactly when it is an object with an array of
      messages that all carry string ids and thread ids, an absent or string
      page token, and an absent or numeric size estimate. */
  lemma {:induction false} ListMessagesShape(data: Json)
    ensures IsGmailListMessages(data) == Normal(true) <==>
      && data.JObj?
      && Member(data, "messages").JArr?
      && (forall i :: 0 <= i < |Member(data, "messages").items| ==> HasIds(Member(data, "messages").items[i]))
      && (Member(data, "nextPageToken") == JUndef || Member(data, "nextPageToken").JStr?)
      && (Member(data, "resultSizeEstimate") == JUndef || Member(data, "resultSizeEstimate").JNum?)
  {
    var messages := Member(data, "messages");
    if data.JObj? && messages.JArr? && forall i :: 0 <= i < |messages.items| ==> HasIds(messages.items[i]) {
      EveryHasIdsComplete(messages.items);
    }
  }

  lemma {:induction false} EveryHasIdsComplete(messages: seq<Json>)
    requires forall i :: 0 <= i < |messages| ==> HasIds(messages[i])
    ensures EveryHasIds(messages) == Normal(true)
  {
    if messages != [] {
      assert HasIds(messages[0]);
      EveryHasIdsComplete(messages[1..]);
    }
  }

  /** A response without an array of messages never passes. */
  lemma NoMessagesArrayFails(data: Json)
    requires !Member(data, "messages").JArr?
    ensures IsGmailListMessages(data) == Normal(false)
  {
  }

  // ---------------------------------------------------------------------------
  // Sorting by thread
  // ---------------------------------------------------------------------------

  /** `message.threadId || ''`, the key the listing is sorted on. */
  function ThreadKey(message: Json): string
  {
    match Member(message, "threadId")
    case JStr(s) => s
    case _ => ""
  }

  predicate SortedByThread(ms: seq<Json>)
  {
    forall i, j :: 0 <= i < j < |ms| ==> LexLeq(ThreadKey(ms[i]), ThreadKey(ms[j]))
  }

  /** Places `m` before the first message whose key is not below its own. */
  function InsertByThread(m: Json, sorted: seq<Json>): seq<Json>
  {
    if sorted == [] then [m]
    else if LexLeq(ThreadKey(m), ThreadKey(sorted[0])) then [m] + sorted
    else [sorted[0]] + InsertByThread(m, sorted[1..])
  }

  /** The listing after `messages.sort(...)` by thread id. */
  function SortByThread(ms: seq<Json>): seq<Json>
  {
    if ms == [] then [] else InsertByThread(ms[0], SortByThread(ms[1..]))
  }

  lemma {:induction false} InsertByThreadSpec(m: Json, sorted: seq<Json>)
    requires SortedByThread(sorted)
    ensures multiset(InsertByThread(m, sorted)) == multiset(sorted) + multiset{m}
    ensures SortedByThread(InsertByThread(m, sorted))
    decreases |sorted|
  {
    if sorted == [] {
    } else if LexLeq(ThreadKey(m), ThreadKey(sorted[0])) {
      forall j | 0 <= j < |sorted|
        ensures LexLeq(ThreadKey(m), ThreadKey(sorted[j]))
      {
        if j > 0 {
          LexLeqTransitive(ThreadKey(m), ThreadKey(sorted[0]), ThreadKey(sorted[j]));
        }
      }
      SortedCons(m, sorted);
    } else {
      var head, tail := sorted[0], sorted[1..];
      assert sorted == [head] + tail;
      LexLeqTotal(ThreadKey(m), ThreadKey(head));
      InsertByThreadSpec(m, tail);
      var t := InsertByThread(m, tail);
      forall j | 0 <= j < |t|
        ensures LexLeq(ThreadKey(head), ThreadKey(t[j]))
      {
        FromMultiset(t[j], m, tail);
        if t[j] != m {
          var k :| 0 <= k < |tail| && tail[k] == t[j];
          assert sorted[k + 1] == t[j];
        }
      }
      SortedCons(head, t);
    }
  }

  lemma FromMultiset(x: Json, m: Json, tail: seq<Json>)
    requires x in multiset(tail) + multiset{m}
    ensures x == m || x in tail
  {
  }

  /** A sorted list stays sorted under a head no later than all of it. */
  lemma SortedCons(h: Json, t: seq<Json>)
    requires SortedByThread(t)
    requires forall j :: 0 <= j < |t| ==> LexLeq(ThreadKey(h), ThreadKey(t[j]))
    ensures SortedByThread([h] + t)
  {
    var r := [h] + t;
    forall i, j | 0 <= i < j < |r|
      ensures LexLeq(ThreadKey(r[i]), ThreadKey(r[j]))
    {
      assert r[j] == t[j - 1];
      if i > 0 {
        assert r[i] == t[i - 1];
      }
    }
  }

  /** Sorting puts the listing in thread order and keeps every message. */
  lemma {:induction false} SortByThreadSpec(ms: seq<Json>)
    ensures SortedByThread(SortByThread(ms))
    ensures multiset(SortByThread(ms)) == multiset(ms)
  {
    if ms != [] {
      SortByThreadSpec(ms[1..]);
      InsertByThreadSpec(ms[0], SortByThread(ms[1..]));
      assert ms == [ms[0]] + ms[1..];
    }
  }

  // ---------------------------------------------------------------------------
  // Trimming
  // ---------------------------------------------------------------------------

  /** The first position at or after `i` where the thread changes. */
  function FirstThreadChange(sorted: seq<Json>, i: nat): (k: nat)
    requires 1 <= i <= |sorted|
    ensures i <= k <= |sorted|
    decreases |sorted| - i
  {
    if i == |sorted| then |sorted|
    else if ThreadKey(sorted[i]) != ThreadKey(sorted[i - 1]) then i
    else FirstThreadChange(sorted, i + 1)
  }

  /** How many of the sorted messages are taken on. */
  function KeepCount(sorted: seq<Json>): nat
  {
    if |sorted| <= MaxMessages then |sorted| else FirstThreadChange(sorted, MaxMessages)
  }

  lemma {:induction false} FirstThreadChangeSpec(sorted: seq<Json>, i: nat)
    requires 1 <= i <= |sorted|
    ensures i <= FirstThreadChange(sorted, i) <= |sorted|
    ensures forall j :: i <= j < FirstThreadChange(sorted, i) ==> ThreadKey(sorted[j]) == ThreadKey(sorted[j - 1])
    ensures FirstThreadChange(sorted, i) < |sorted| ==>
      ThreadKey(sorted[FirstThreadChange(sorted, i)]) != ThreadKey(sorted[FirstThreadChange(sorted, i) - 1])
    decreases |sorted| - i
  {
    if i < |sorted| && ThreadKey(sorted[i]) == ThreadKey(sorted[i - 1]) {
      FirstThreadChangeSpec(sorted, i + 1);
    }
  }

  /** All of a short listing is kept; of a long one, at least the first
      twenty; every message kept past the twentieth continues the thread of
      the one before it, and trimming stops only where a thread ends. */
  lemma KeepCountSpec(sorted: seq<Json>)
    ensures KeepCount(sorted) <= |sorted|
    ensures |sorted| <= MaxMessages ==> KeepCount(sorted) == |sorted|
    ensures |sorted| > MaxMessages ==> KeepCount(sorted) >= MaxMessages
    ensures forall i :: MaxMessages <= i < KeepCount(sorted) ==> ThreadKey(sorted[i]) == ThreadKey(sorted[i - 1])
    ensures KeepCount(sorted) < |sorted| ==>
      KeepCount(sorted) >= MaxMessages && ThreadKey(sorted[KeepCount(sorted)]) != ThreadKey(sorted[KeepCount(sorted) - 1])
  {
    if |sorted| > MaxMessages {
      FirstThreadChangeSpec(sorted, MaxMessages);
    }
  }

  /** Threads are never split: in a sorted listing, no thread has messages
      both among those kept and among those dropped. */
  lemma ThreadsNotSplit(sorted: seq<Json>, i: nat, j: nat)
    requires SortedByThread(sorted)
    requires i < KeepCount(sorted) <= j < |sorted|
    ensures ThreadKey(sorted[i]) != ThreadKey(sorted[j])
  {
    KeepCountSpec(sorted);
    var k := KeepCount(sorted);
    if ThreadKey(sorted[i]) == ThreadKey(sorted[j]) {
      assert LexLeq(ThreadKey(sorted[k]), ThreadKey(sorted[j])) by {
        if k < j {
          assert LexLeq(ThreadKey(sorted[k]), ThreadKey(sorted[j]));
        } else {
          LexLeqReflexive(ThreadKey(sorted[k]));
        }
      }
      assert LexLeq(ThreadKey(sorted[i]), ThreadKey(sorted[k - 1])) by {
        if i < k - 1 {
          assert LexLeq(ThreadKey(sorted[i]), ThreadKey(sorted[k - 1]));
        } else {
          LexLeqReflexive(ThreadKey(sorted[i]));
        }
      }
      LexLeqTransitive(ThreadKey(sorted[k]), ThreadKey(sorted[j]), ThreadKey(sorted[k - 1]));
      LexLeqAntisymmetric(ThreadKey(sorted[k - 1]), ThreadKey(sorted[k]));
      assert false;
    }
  }

  // ---------------------------------------------------------------------------
  // getMessages
  // ---------------------------------------------------------------------------

  /** The messages of a listing that passes the checks, sorted by thread. */
  function SortedMessages(data: Json): seq<Json>
  {
    var messages := Member(data, "messages");
    if messages.JArr? then SortByThread(messages.items) else []
  }

  /** Sorting neither adds nor loses a message, so the sorted listing still
      passes the callback check. */
  lemma SortedKeepsIds(listed: seq<Json>)
    requires forall i :: 0 <= i < |listed| ==> HasIds(listed[i])
    ensures forall i :: 0 <= i < |SortByThread(listed)| ==> HasIds(SortByThread(listed)[i])
  {
    var sorted := SortByThread(listed);
    SortByThreadSpec(listed);
    forall i | 0 <= i < |sorted|
      ensures HasIds(sorted[i])
    {
      assert sorted[i] in multiset(listed);
      var k :| 0 <= k < |listed| && listed[k] == sorted[i];
    }
  }

  /** The loop of `getMessages` over the sorted listing: take messages while
      fewer than twenty are taken or the thread goes on, and stop at the
      first message that would start a new thread past that. Each message
      must carry an id and a thread id, which the loop asserts. */
  method KeepWholeThreads(sorted: seq<Json>) returns (messagesToProcess: seq<Json>)
    requires forall i :: 0 <= i < |sorted| ==> HasIds(sorted[i])
    ensures messagesToProcess == sorted[..KeepCount(sorted)]
  {
    var lastThreadId := "";
    messagesToProcess := [];
    var i := 0;
    while i < |sorted|
      invariant 0 <= i <= |sorted|
      invariant messagesToProcess == sorted[..i]
      invariant i > 0 ==> lastThreadId == ThreadKey(sorted[i - 1])
      invariant i <= MaxMessages ==> i <= KeepCount(sorted)
      invariant i > MaxMessages ==> KeepCount(sorted) == FirstThreadChange(sorted, i)
    {
      var message := sorted[i];
      assert !IsNullish(Member(message, "id")) && !IsNullish(Member(message, "threadId"));
      if lastThreadId == ThreadKey(message) || |messagesToProcess| < MaxMessages {
        messagesToProcess := messagesToProcess + [message];
      } else {
        return;
      }
      lastThreadId := ThreadKey(message);
      i := i + 1;
    }
    if |sorted| > MaxMessages {
      FirstThreadChangeSpec(sorted, MaxMessages);
    }
  }

  /** Validation, sorting and trimming in `getMessages`, given the listing
      `res.data`: the messages that are then fetched one by one, or the error
      raised. Any failure of the checks, thrown or not, lands in the same
      handler. */
  method SelectMessages(data: Json) returns (r: Completion<seq<Json>>)
    ensures IsNullish(data) ==> r == Throw(TypeError)
    ensures !IsNullish(data) && IsGmailListMessages(data) != Normal(true) ==>
      r == if IsNullish(Member(data, "resultSizeEstimate")) then Throw(Error(NotIterableMessage)) else Normal([])
    ensures IsGmailListMessages(data) == Normal(true) ==>
      r == Normal(SortedMessages(data)[..KeepCount(SortedMessages(data))])
  {
    var valid := IsGmailListMessages(data);
    if valid != Normal(true) || !Member(data, "messages").JArr? {
      if IsNullish(data) {
        return Throw(TypeError);
      }
      if IsNullish(Member(data, "resultSizeEstimate")) {
        return Throw(Error(NotIterableMessage));
      }
      return Normal([]);
    }
    ListMessagesShape(data);
    var listed := Member(data, "messages").items;
    SortedKeepsIds(listed);
    var messagesToProcess := KeepWholeThreads(SortByThread(listed));
    return Normal(messagesToProcess);
  }

  /** A listing with no messages at all but a size estimate (Gmail's answer
      when nothing matches) yields no messages rather than an error. */
  lemma EmptyListingYieldsNothing(data: Json, estimate: real)
    requires data.JObj? && "messages" !in data.fields
    requires Member(data, "resultSizeEstimate") == JNum(estimate)
    ensures IsGmailListMessages(data) == Normal(false)
    ensures !IsNullish(Member(data, "resultSizeEstimate"))
  {
  }
}
