/**
 * The per-session conversation history kept by the LLM client: a map from
 * session id to the list of `{role, content}` messages exchanged so far,
 * capped at the most recent twenty.
 */
module Conversation {

  /** At most this many messages are kept per session. */
  const MaxHistory: nat := 20

  datatype Role = System | User | Assistant

  datatype Message = Message(role: Role, content: string)

  type SessionId = string

  type Store = map<SessionId, seq<Message>>

  /** The history a session currently holds; a session never seen has none. */
  function History(store: Store, sid: SessionId): seq<Message> {
    if sid in store then store[sid] else []
  }

  /** Every session's history respects the cap. */
  predicate Bounded(store: Store) {
    forall s :: s in store ==> |store[s]| <= MaxHistory
  }

  /** Every session other than `sid` is present in `a` iff in `b`, with the same history. */
  ghost predicate SameElsewhere(a: Store, b: Store, sid: SessionId) {
    forall s :: s != sid ==> (s in a <==> s in b) && History(a, s) == History(b, s)
  }

  ghost predicate IsSuffix<T>(a: seq<T>, b: seq<T>) {
    |a| <= |b| && b[|b| - |a|..] == a
  }

  /** The last `n` elements of `s` (all of `s` when it is shorter), as Python's `s[-n:]` for a list longer than `n`. */
  function LastN<T>(n: nat, s: seq<T>): (r: seq<T>)
    ensures |r| == if |s| <= n then |s| else n
  {
    if |s| <= n then s else s[|s| - n..]
  }

  /**
   * `_get_conversation_history`: `setdefault(sid, [])` — the session's
   * history, registering an empty one for a session never seen. The
   * registration changes no session's visible history.
   */
  function GetHistory(store: Store, sid: SessionId): (r: (Store, seq<Message>))
    ensures r.1 == History(store, sid)
    ensures sid in r.0
    ensures forall s :: History(r.0, s) == History(store, s)
    ensures SameElsewhere(r.0, store, sid)
    ensures Bounded(store) ==> Bounded(r.0)
  {
    if sid in store then (store, store[sid]) else (store[sid := []], [])
  }

  /**
   * `_add_to_conversation`: append one message to the session's history
   * and, once the list exceeds the cap, keep only its most recent twenty.
   */
  function Append(store: Store, sid: SessionId, role: Role, content: string): (r: Store)
    ensures sid in r
    ensures 0 < |r[sid]| <= MaxHistory
    ensures r[sid][|r[sid]| - 1] == Message(role, content)
    ensures |History(store, sid)| < MaxHistory ==> r[sid] == History(store, sid) + [Message(role, content)]
    ensures |History(store, sid)| >= MaxHistory ==>
      |r[sid]| == MaxHistory && IsSuffix(r[sid], History(store, sid) + [Message(role, content)])
    ensures SameElsewhere(r, store, sid)
    ensures Bounded(store) ==> Bounded(r)
  {
    var (registered, history) := GetHistory(store, sid);
    var appended := history + [Message(role, content)];
    if |appended| > MaxHistory then registered[sid := appended[|appended| - MaxHistory..]]
    else registered[sid := appended]
  }

  /** `clear_conversation`: `pop(sid, None)` — forget the session, missing or not. */
  function Clear(store: Store, sid: SessionId): (r: Store)
    ensures sid !in r
    ensures History(r, sid) == []
    ensures SameElsewhere(r, store, sid)
    ensures Bounded(store) ==> Bounded(r)
  {
    map s | s in store && s != sid :: store[s]
  }

  /** Clearing twice is clearing once, and a later read finds nothing. */
  lemma ClearIdempotent(store: Store, sid: SessionId)
    ensures Clear(Clear(store, sid), sid) == Clear(store, sid)
    ensures GetHistory(Clear(store, sid), sid).1 == []
  {
  }

  /** Appending a list of messages one at a time, oldest first. */
  function AppendAll(store: Store, sid: SessionId, ms: seq<Message>): (r: Store)
    ensures sid in r || (sid !in store && |ms| == 0)
    ensures SameElsewhere(r, store, sid)
    decreases |ms|
  {
    if |ms| == 0 then store
    else AppendAll(Append(store, sid, ms[0].role, ms[0].content), sid, ms[1..])
  }

  /** Trimming to the last `n` before appending more loses nothing that trimming afterwards would keep. */
  lemma LastNOfConcat<T>(n: nat, b: seq<T>, c: seq<T>)
    ensures LastN(n, LastN(n, b) + c) == LastN(n, b + c)
  {
    if |b| > n {
      var v := b + c;
      var a := |b| - n;
      assert LastN(n, b) == b[a..];
      DropOfConcat(b, c, a);
      SuffixOfSuffix(v, a, |c|);
      assert LastN(n, v[a..]) == v[a..][|c|..];
    }
  }

  lemma DropOfConcat<T>(b: seq<T>, c: seq<T>, a: nat)
    requires a <= |b|
    ensures b[a..] + c == (b + c)[a..]
  {
  }

  lemma SuffixOfSuffix<T>(v: seq<T>, a: nat, k: nat)
    requires a + k <= |v|
    ensures v[a..][k..] == v[a + k..]
  {
  }

  /** Trimming after the first of several appends and again at the end is trimming once at the end. */
  lemma LastNStep<T>(n: nat, h: seq<T>, ms: seq<T>, trimmed: seq<T>)
    requires |ms| > 0
    requires trimmed == LastN(n, h + [ms[0]])
    ensures LastN(n, trimmed + ms[1..]) == LastN(n, h + ms)
  {
    LastNOfConcat(n, h + [ms[0]], ms[1..]);
    MoveHead(h, ms);
  }

  lemma MoveHead<T>(h: seq<T>, ms: seq<T>)
    requires |ms| > 0
    ensures (h + [ms[0]]) + ms[1..] == h + ms
  {
    assert ms == [ms[0]] + ms[1..];
  }

  /** One append to a history within the cap keeps exactly the last twenty of old history plus the new message. */
  lemma AppendIsLastN(store: Store, sid: SessionId, role: Role, content: string)
    requires |History(store, sid)| <= MaxHistory
    ensures History(Append(store, sid, role, content), sid) == LastN(MaxHistory, History(store, sid) + [Message(role, content)])
  {
  }

  /**
   * However many messages are appended, the session ends up holding exactly
   * the most recent twenty of its old history followed by the new
   * messages, in their original order.
   */
  lemma {:induction false} AppendAllKeepsMostRecent(store: Store, sid: SessionId, ms: seq<Message>)
    requires |History(store, sid)| <= MaxHistory
    ensures History(AppendAll(store, sid, ms), sid) == LastN(MaxHistory, History(store, sid) + ms)
    decreases |ms|
  {
    var h := History(store, sid);
    if |ms| == 0 {
      assert h + ms == h;
    } else {
      var m := ms[0];
      var next := Append(store, sid, m.role, m.content);
      AppendIsLastN(store, sid, m.role, m.content);
      AppendAllKeepsMostRecent(next, sid, ms[1..]);
      LastNStep(MaxHistory, h, ms, History(next, sid));
    }
  }
}
