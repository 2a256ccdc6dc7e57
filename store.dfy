/**
 * The single-table conversation store of the backend and the handlers that
 * use it. Every record lives under a partition key `PK` and a sort key `SK`:
 * a device's session headers, messages and daily usage counters under
 * `DEVICE#<id>`, a user's memory under `USER#<id>`. Session headers and
 * messages also carry a secondary-index key `GSI1PK = SESSION#<sid>` (with
 * `GSI1SK` = `META` or `MSG#<time>`), so that everything belonging to one
 * session can be found without knowing its owner.
 */
module Store {
  import opened Wrappers
  import opened Text
  import Sorting
  import Memory

  const TtlDays: nat := 90
  const PageLimit: nat := 100
  const MaxPages: nat := 10

  datatype Key = Key(pk: string, sk: string)

  /** The attributes a record carries besides its keys. */
  datatype Data =
    | SessionMeta(deviceId: string, sessionId: string, tutorName: string, topic: string, accent: string,
                  level: string, gender: string, settings: map<string, string>, startedAt: string,
                  endedAt: Option<string>, duration: int, turnCount: int, wordCount: int, status: string,
                  createdAt: string, ttl: int)
    | Message(deviceId: string, sessionId: string, role: string, content: string, translation: Option<string>,
              turnNumber: int, timestamp: string, createdAt: string, ttl: int)
    | UsageRecord(counts: map<string, int>, plan: Option<string>, updatedAt: string, ttl: int)
    | UserMemory(userId: string, memory: Memory.Mem, updatedAt: string, ttl: int)
    | OtherRecord(kind: string)

  datatype Item = Item(pk: string, sk: string, gsi1pk: Option<string>, gsi1sk: Option<string>, data: Data)

  predicate IsPrefix(p: string, s: string) {
    |p| <= |s| && s[..|p|] == p
  }

  /** The clock readings a handler takes: `get_now()` (an ISO-8601 KST
      timestamp), the UTC epoch seconds behind `get_ttl()`, and today's KST date. */
  datatype Clock = Clock(now: string, epochSeconds: int, kstDate: string)

  /** `get_ttl()`: 90 days after now, in epoch seconds. */
  function Ttl(c: Clock): int {
    c.epochSeconds + TtlDays * 24 * 60 * 60
  }

  /** The incoming message of `save_message`. */
  datatype MessageIn = MessageIn(role: Option<string>, content: Option<string>, translation: Option<string>,
                                 turnNumber: Option<int>)

  /** A request body; `None` is a key the body does not have. */
  datatype Request = Request(
    userId: Option<string>, deviceId: Option<string>, sessionId: Option<string>,
    tutorName: Option<string>, settings: Option<map<string, string>>, message: Option<MessageIn>,
    duration: Option<int>, turnCount: Option<int>, wordCount: Option<int>,
    limit: Option<int>, lastKey: Option<Key>, usageType: Option<string>, memory: Option<Memory.Mem>)

  /** Python truthiness of an optional string. */
  predicate Truthy(s: Option<string>) {
    s.Some? && s.value != ""
  }

  /** `get_user_id(body)`: `userId` when truthy, else `deviceId`. */
  function UserIdOf(req: Request): (r: Option<string>)
    ensures Truthy(r) <==> Truthy(req.userId) || Truthy(req.deviceId)
    ensures Truthy(req.userId) ==> r == req.userId
  {
    if Truthy(req.userId) then req.userId else req.deviceId
  }

  /** An error answer: HTTP status and message. */
  datatype Failure = Failure(status: int, message: string)

  /** `validate_required`: the names whose values are falsy, reported in order. */
  function ValidateRequired(fields: seq<(string, bool)>): (r: Option<Failure>)
    ensures r.None? <==> forall i :: 0 <= i < |fields| ==> fields[i].1
    ensures r.Some? ==> r.value.status == 400
  {
    var missing := Missing(fields);
    if missing == [] then None
    else Some(Failure(400, Join(missing, ", ") + (if |missing| == 1 then " is required" else " are required")))
  }

  function Missing(fields: seq<(string, bool)>): (r: seq<string>)
    ensures r == [] <==> forall i :: 0 <= i < |fields| ==> fields[i].1
    ensures |r| <= |fields|
  {
    if fields == [] then []
    else (if fields[0].1 then [] else [fields[0].0]) + Missing(fields[1..])
  }

  /** One missing field is reported as "<name> is required". */
  lemma ValidateOneMissing(name: string)
    ensures ValidateRequired([(name, false)]) == Some(Failure(400, name + " is required"))
  {
    assert Missing([(name, false)]) == [name];
  }

  /** A session as the listing reports it. */
  datatype SessionSummary = SessionSummary(sessionId: string, tutorName: string, topic: string, accent: string,
                                           level: string, startedAt: string, endedAt: Option<string>,
                                           duration: int, turnCount: int, wordCount: int, status: string)

  function Summarize(d: Data): SessionSummary
    requires d.SessionMeta?
  {
    SessionSummary(d.sessionId, d.tutorName, d.topic, d.accent, d.level, d.startedAt, d.endedAt,
                   d.duration, d.turnCount, d.wordCount, d.status)
  }

  /** The listing entries of the headers on a page, in page order. */
  function Headers(page: seq<Item>): (r: seq<SessionSummary>)
    ensures |r| <= |page|
  {
    if page == [] then []
    else
      var last := page[|page| - 1];
      Headers(page[..|page| - 1]) + (if last.data.SessionMeta? then [Summarize(last.data)] else [])
  }

  /** The page's headers are exactly the entries of its header items. */
  lemma {:induction false} HeadersMembers(page: seq<Item>)
    ensures forall x :: x in Headers(page) <==>
      exists t :: 0 <= t < |page| && page[t].data.SessionMeta? && x == Summarize(page[t].data)
  {
    if page != [] {
      var init := page[..|page| - 1];
      HeadersMembers(init);
      assert forall t :: 0 <= t < |init| ==> init[t] == page[t];
    }
  }

  /** The headers of a prefix of a page are a prefix of the page's headers. */
  lemma {:induction false} HeadersPrefix(page: seq<Item>, j: nat)
    requires j <= |page|
    ensures |Headers(page[..j])| <= |Headers(page)|
    ensures Headers(page[..j]) == Headers(page)[..|Headers(page[..j])|]
    decreases |page| - j
  {
    if j < |page| {
      HeadersPrefix(page, j + 1);
      assert page[..j + 1][..j] == page[..j];
    } else {
      assert page[..j] == page;
    }
  }

  /** The positions of the headers on a page, in page order. */
  function HeaderIdx(page: seq<Item>): (r: seq<nat>)
    ensures |r| == |Headers(page)|
    ensures forall t :: 0 <= t < |r| ==> r[t] < |page|
  {
    if page == [] then []
    else
      var n := |page| - 1;
      HeaderIdx(page[..n]) + (if page[n].data.SessionMeta? then [n] else [])
  }

  /** Each header position holds a header, whose entry is the one `Headers` lists there. */
  lemma {:induction false} HeaderIdxHeads(page: seq<Item>)
    ensures forall t :: 0 <= t < |HeaderIdx(page)| ==>
      page[HeaderIdx(page)[t]].data.SessionMeta? && Headers(page)[t] == Summarize(page[HeaderIdx(page)[t]].data)
  {
    if page != [] {
      var n := |page| - 1;
      var init := page[..n];
      HeaderIdxHeads(init);
      var idx, idx0, hs, hs0 := HeaderIdx(page), HeaderIdx(init), Headers(page), Headers(init);
      assert idx == idx0 + (if page[n].data.SessionMeta? then [n] else []);
      assert hs == hs0 + (if page[n].data.SessionMeta? then [Summarize(page[n].data)] else []);
      forall t | 0 <= t < |idx| ensures page[idx[t]].data.SessionMeta? && hs[t] == Summarize(page[idx[t]].data) {
        if t < |idx0| {
          assert idx[t] == idx0[t] && hs[t] == hs0[t] && page[idx0[t]] == init[idx0[t]];
        }
      }
    }
  }

  /** The header positions rise strictly. */
  lemma {:induction false} HeaderIdxRises(page: seq<Item>)
    ensures forall t1, t2 :: 0 <= t1 < t2 < |HeaderIdx(page)| ==> HeaderIdx(page)[t1] < HeaderIdx(page)[t2]
  {
    if page != [] {
      var n := |page| - 1;
      var init := page[..n];
      HeaderIdxRises(init);
      var idx, idx0 := HeaderIdx(page), HeaderIdx(init);
      assert idx == idx0 + (if page[n].data.SessionMeta? then [n] else []);
      assert forall t :: 0 <= t < |idx0| ==> idx[t] == idx0[t];
    }
  }

  /** Every header of a page has its position among the header positions. */
  lemma {:induction false} HeaderIdxComplete(page: seq<Item>)
    ensures forall s :: 0 <= s < |page| && page[s].data.SessionMeta? ==> s in HeaderIdx(page)
  {
    if page != [] {
      var n := |page| - 1;
      var init := page[..n];
      HeaderIdxComplete(init);
      var idx, idx0 := HeaderIdx(page), HeaderIdx(init);
      assert idx == idx0 + (if page[n].data.SessionMeta? then [n] else []);
      forall s | 0 <= s < |page| && page[s].data.SessionMeta? ensures s in idx {
        if s < n {
          assert init[s] == page[s];
        } else {
          assert idx[|idx| - 1] == n;
        }
      }
    }
  }

  /** On a descending page, the `m`-th header is at or above the page's last item. */
  lemma HeaderAboveLast(page: seq<Item>, m: nat)
    requires Descending(page)
    requires 0 < m <= |HeaderIdx(page)|
    ensures StrLe(page[|page| - 1].sk, page[HeaderIdx(page)[m - 1]].sk)
  {
    var low := page[HeaderIdx(page)[m - 1]].sk;
    if HeaderIdx(page)[m - 1] < |page| - 1 {
      assert StrLt(page[|page| - 1].sk, low);
    } else {
      StrLeTotal(low, low);
    }
  }

  /** On a descending page, a header at or above the `m`-th header is among the first `m`. */
  lemma HeaderAboveTaken(page: seq<Item>, m: nat, s: nat)
    requires Descending(page)
    requires 0 < m <= |HeaderIdx(page)|
    requires s < |page| && page[s].data.SessionMeta?
    requires StrLe(page[HeaderIdx(page)[m - 1]].sk, page[s].sk)
    ensures exists t :: 0 <= t < m && HeaderIdx(page)[t] == s
  {
    HeaderIdxRises(page);
    HeaderIdxComplete(page);
    var idx := HeaderIdx(page);
    var t :| 0 <= t < |idx| && idx[t] == s;
    if t >= m {
      assert idx[m - 1] < idx[t];
      assert StrLt(page[s].sk, page[idx[m - 1]].sk);
      StrLeAntisym(page[idx[m - 1]].sk, page[s].sk);
      assert false;
    }
  }

  /** Keys at or above a cursor followed by descending keys below it are descending. */
  lemma WalkOrder(current: Option<Key>, keys: seq<Key>, nk: seq<Key>, ks: seq<Key>)
    requires forall i, j :: 0 <= i < j < |keys| ==> StrLt(keys[j].sk, keys[i].sk)
    requires forall i, j :: 0 <= i < j < |nk| ==> StrLt(nk[j].sk, nk[i].sk)
    requires current.Some? ==> forall i :: 0 <= i < |keys| ==> StrLe(current.value.sk, keys[i].sk)
    requires current.Some? ==> forall t :: 0 <= t < |nk| ==> StrLt(nk[t].sk, current.value.sk)
    requires current.None? ==> keys == []
    requires ks == keys + nk
    ensures forall i, j :: 0 <= i < j < |ks| ==> StrLt(ks[j].sk, ks[i].sk)
  {
    forall i, j | 0 <= i < j < |ks| ensures StrLt(ks[j].sk, ks[i].sk) {
      if j < |keys| {
        assert ks[i] == keys[i] && ks[j] == keys[j];
      } else if i >= |keys| {
        assert ks[i] == nk[i - |keys|] && ks[j] == nk[j - |keys|];
      } else {
        assert ks[i] == keys[i] && ks[j] == nk[j - |keys|];
        StrLtTrans(ks[j].sk, current.value.sk, ks[i].sk);
      }
    }
  }

  /** The keys of the items at the positions `idx` of a page. */
  function KeysAt(page: seq<Item>, idx: seq<nat>): (r: seq<Key>)
    requires forall t :: 0 <= t < |idx| ==> idx[t] < |page|
    ensures |r| == |idx|
    ensures forall t :: 0 <= t < |idx| ==> r[t] == Key(page[idx[t]].pk, page[idx[t]].sk)
  {
    seq(|idx|, t requires 0 <= t < |idx| => Key(page[idx[t]].pk, page[idx[t]].sk))
  }

  /**
   * The keys of a descending page's first `m` headers: the last of them is
   * at or above the page's last item, and every header at or above it is
   * among them.
   */
  lemma TakenCover(page: seq<Item>, m: nat, nk: seq<Key>)
    requires Descending(page)
    requires 0 < m <= |HeaderIdx(page)| && nk == KeysAt(page, HeaderIdx(page)[..m])
    ensures |nk| == m && StrLe(page[|page| - 1].sk, nk[m - 1].sk)
    ensures forall s :: 0 <= s < |page| && page[s].data.SessionMeta? && StrLe(nk[m - 1].sk, page[s].sk) ==>
      Key(page[s].pk, page[s].sk) in nk
  {
    HeaderAboveLast(page, m);
    forall s | 0 <= s < |page| && page[s].data.SessionMeta? && StrLe(nk[m - 1].sk, page[s].sk)
      ensures Key(page[s].pk, page[s].sk) in nk
    {
      HeaderAboveTaken(page, m, s);
      var t :| 0 <= t < m && HeaderIdx(page)[t] == s;
      assert nk[t] == Key(page[s].pk, page[s].sk);
    }
  }

  /**
   * The keys of all of a descending page's headers: every header is among
   * them, and each is at or above the page's last item.
   */
  lemma AllTakenCover(page: seq<Item>, nk: seq<Key>)
    requires Descending(page)
    requires page != [] && nk == KeysAt(page, HeaderIdx(page))
    ensures forall s :: 0 <= s < |page| && page[s].data.SessionMeta? ==> Key(page[s].pk, page[s].sk) in nk
    ensures forall t :: 0 <= t < |nk| ==> StrLe(page[|page| - 1].sk, nk[t].sk)
  {
    HeaderIdxComplete(page);
    var idx := HeaderIdx(page);
    forall s | 0 <= s < |page| && page[s].data.SessionMeta? ensures Key(page[s].pk, page[s].sk) in nk {
      var t :| 0 <= t < |idx| && idx[t] == s;
      assert nk[t] == Key(page[s].pk, page[s].sk) && nk[t] in nk;
    }
    StrLeTotal(page[|page| - 1].sk, page[|page| - 1].sk);
    forall t | 0 <= t < |nk| ensures StrLe(page[|page| - 1].sk, nk[t].sk) {
      if idx[t] < |page| - 1 {
        assert StrLt(page[|page| - 1].sk, page[idx[t]].sk);
      }
    }
  }

  /**
   * `out` keeps every entry of `sessions` and adds only headers of `page`;
   * when the page was walked to its end, every header on it is there.
   */
  ghost predicate Gathered(page: seq<Item>, sessions: seq<SessionSummary>, out: seq<SessionSummary>, whole: bool) {
    (forall x :: x in sessions ==> x in out)
    && (forall x :: x in out ==>
         (x in sessions || exists t :: 0 <= t < |page| && page[t].data.SessionMeta? && x == Summarize(page[t].data)))
    && (whole ==> forall t :: 0 <= t < |page| && page[t].data.SessionMeta? ==> Summarize(page[t].data) in out)
  }

  /** What a walk that took the page's first headers holds. */
  lemma TakenMembers(page: seq<Item>, sessions: seq<SessionSummary>, out: seq<SessionSummary>, whole: bool)
    requires |sessions| <= |out| && out[..|sessions|] == sessions
    requires |out| - |sessions| <= |Headers(page)| && out[|sessions|..] == Headers(page)[..|out| - |sessions|]
    requires whole ==> out == sessions + Headers(page)
    ensures Gathered(page, sessions, out, whole)
  {
    HeadersMembers(page);
    forall x | x in out && x !in sessions
      ensures exists t :: 0 <= t < |page| && page[t].data.SessionMeta? && x == Summarize(page[t].data)
    {
      var i :| 0 <= i < |out| && out[i] == x;
      assert i >= |sessions|;
      assert out[|sessions|..][i - |sessions|] == x;
      assert x in Headers(page);
    }
  }

  /** Where the walk of a page stops, its result is the page's first headers after `sessions`. */
  lemma ScanEnd(page: seq<Item>, sessions: seq<SessionSummary>, out: seq<SessionSummary>, limit: int, j: nat,
                full: bool)
    requires |sessions| < limit || sessions == []
    requires j <= |page| && out == sessions + Headers(page[..j])
    requires full ==> |out| == Max1(limit) && |out| > |sessions|
    requires !full ==> j == |page| && (|out| < limit || out == sessions)
    ensures full <==> |sessions| + |Headers(page)| >= Max1(limit)
    ensures out == sessions + Headers(page)[..if full then Max1(limit) - |sessions| else |Headers(page)|]
    ensures Gathered(page, sessions, out, !full)
    ensures |out| <= Max1(limit)
  {
    var hs := Headers(page);
    HeadersPrefix(page, j);
    if full {
      var m := |Headers(page[..j])|;
      assert m == Max1(limit) - |sessions| && out == sessions + hs[..m];
    } else {
      assert page[..j] == page;
      assert hs[..|hs|] == hs;
    }
    TakenMembers(page, sessions, out, !full);
  }

  /** The newest session first: `sort(key=startedAt, reverse=True)`, stable. */
  function NewerFirst(a: SessionSummary, b: SessionSummary): bool {
    StrLe(b.startedAt, a.startedAt)
  }

  lemma NewerFirstPreorder()
    ensures Sorting.TotalPreorder(NewerFirst)
  {
    forall a: SessionSummary, b: SessionSummary ensures NewerFirst(a, b) || NewerFirst(b, a) {
      StrLeTotal(a.startedAt, b.startedAt);
    }
    forall a: SessionSummary, b: SessionSummary, c: SessionSummary | NewerFirst(a, b) && NewerFirst(b, c)
      ensures NewerFirst(a, c)
    {
      StrLeTrans(c.startedAt, b.startedAt, a.startedAt);
    }
  }

  /** `s[:n]` in Python, negative `n` counting from the end. */
  function PyTake<T>(s: seq<T>, n: int): (r: seq<T>)
    ensures |r| <= |s| && r == s[..|r|]
    ensures n >= 0 ==> |r| == if n < |s| then n else |s|
    ensures n < 0 ==> |r| == if |s| + n > 0 then |s| + n else 0
  {
    if n >= 0 then (if n < |s| then s[..n] else s)
    else if |s| + n > 0 then s[..|s| + n] else []
  }

  function Max0(n: int): nat {
    if n < 0 then 0 else n
  }

  function Max1(n: int): nat {
    if n < 1 then 1 else n
  }

  lemma SortedPrefix<T>(s: seq<T>, n: nat, le: (T, T) -> bool)
    requires n <= |s| && Sorting.Sorted(s, le)
    ensures Sorting.Sorted(s[..n], le)
  {
  }

  /** An item below the current cursor is below the first one, since the cursor only moves down. */
  lemma WidenRange(it: Item, pk: string, current: Option<Key>, start: Option<Key>)
    requires InRange(it, pk, "SESSION#", current)
    requires current.None? ==> start.None?
    requires current.Some? && start.Some? ==> StrLe(current.value.sk, start.value.sk)
    ensures InRange(it, pk, "SESSION#", start)
    ensures current.Some? && start.Some? ==> StrLe(it.sk, start.value.sk)
  {
    if current.Some? && start.Some? {
      StrLtTrans(it.sk, current.value.sk, start.value.sk);
    }
  }

  /** A message as the session detail reports it. */
  datatype MessageView = MessageView(role: string, content: string, translation: Option<string>,
                                     timestamp: string, turnNumber: int)

  function ByTurn(a: MessageView, b: MessageView): bool {
    a.turnNumber <= b.turnNumber
  }

  /** The session header as the session detail reports it. */
  datatype MetaView = MetaView(sessionId: string, tutorName: string, startedAt: string, endedAt: Option<string>,
                               duration: int, turnCount: int, wordCount: int, status: string)

  lemma ByTurnPreorder()
    ensures Sorting.TotalPreorder(ByTurn)
  {
  }

  function GsiOrder(a: Item, b: Item): bool {
    StrLe(a.gsi1sk.GetOr(""), b.gsi1sk.GetOr(""))
  }

  lemma GsiOrderPreorder()
    ensures Sorting.TotalPreorder(GsiOrder)
  {
    forall a: Item, b: Item ensures GsiOrder(a, b) || GsiOrder(b, a) {
      StrLeTotal(a.gsi1sk.GetOr(""), b.gsi1sk.GetOr(""));
    }
    forall a: Item, b: Item, c: Item | GsiOrder(a, b) && GsiOrder(b, c) ensures GsiOrder(a, c) {
      StrLeTrans(a.gsi1sk.GetOr(""), b.gsi1sk.GetOr(""), c.gsi1sk.GetOr(""));
    }
  }

  predicate StrLt(a: string, b: string) {
    StrLe(a, b) && a != b
  }

  /** Every finite non-empty set of keys has one with the greatest sort key. */
  lemma {:induction false} MaxExists(s: set<Key>)
    requires s != {}
    ensures exists m :: m in s && forall x :: x in s ==> StrLe(x.sk, m.sk)
    decreases |s|
  {
    var a :| a in s;
    if s - {a} == {} {
      forall x | x in s ensures StrLe(x.sk, a.sk) {
        assert x in s - {a} || x == a;
        StrLeTotal(a.sk, a.sk);
      }
    } else {
      MaxExists(s - {a});
      var m :| m in s - {a} && forall x :: x in s - {a} ==> StrLe(x.sk, m.sk);
      StrLeTotal(a.sk, m.sk);
      if StrLe(a.sk, m.sk) {
        assert forall x :: x in s ==> StrLe(x.sk, m.sk);
      } else {
        forall x | x in s ensures StrLe(x.sk, a.sk) {
          if x != a { StrLeTrans(x.sk, m.sk, a.sk); }
          else { StrLeTotal(a.sk, a.sk); }
        }
      }
    }
  }

  lemma StrLtTrans(a: string, b: string, c: string)
    requires StrLt(a, b) && StrLe(b, c)
    ensures StrLt(a, c)
  {
    StrLeTrans(a, b, c);
    if a == c { StrLeAntisym(a, b); }
  }

  /** A `dict.get(key, default)` on a string map. */
  function Get(m: map<string, string>, k: string, d: string): string {
    if k in m then m[k] else d
  }

  function DevicePk(device: string): string { "DEVICE#" + device }
  function SessionGsi(sessionId: string): string { "SESSION#" + sessionId }

  /** The key of a session header: `DEVICE#<id>` / `SESSION#<now>#<sid>#META`. */
  function MetaKey(device: string, now: string, sessionId: string): Key {
    Key(DevicePk(device), "SESSION#" + now + "#" + sessionId + "#META")
  }

  /** The key of a message: `DEVICE#<id>` / `SESSION#<sid>#MSG#<now>`. */
  function MessageKey(device: string, sessionId: string, now: string): Key {
    Key(DevicePk(device), "SESSION#" + sessionId + "#" + "MSG#" + now)
  }

  /** The key of a day's usage counters: `DEVICE#<id>` / `USAGE#<date>`. */
  function UsageKey(device: string, date: string): Key {
    Key(DevicePk(device), "USAGE#" + date)
  }

  /** The key of a user's memory: `USER#<id>` / `MEMORY`. */
  function MemoryKey(userId: string): Key {
    Key("USER#" + userId, "MEMORY")
  }

  /** Whether an item is the header of session `sessionId` in the secondary index. */
  predicate IsMetaOf(it: Item, sessionId: string) {
    it.gsi1pk == Some(SessionGsi(sessionId)) && it.gsi1sk == Some("META")
  }

  /** Whether an item lies in the sort-key range `prefix…`, strictly below the start key. */
  predicate InRange(it: Item, pk: string, prefix: string, start: Option<Key>) {
    it.pk == pk && IsPrefix(prefix, it.sk) && (start.None? || StrLt(it.sk, start.value.sk))
  }

  predicate InGsi(it: Item, gpk: string, gsk: Option<string>) {
    it.gsi1pk == Some(gpk) && (gsk.None? || it.gsi1sk == gsk)
  }

  /** Strictly descending sort keys. */
  ghost predicate Descending(page: seq<Item>) {
    forall i, j :: 0 <= i < j < |page| ==> StrLt(page[j].sk, page[i].sk)
  }

  lemma ExtendDescending(page: seq<Item>, it: Item)
    requires Descending(page)
    requires page != [] ==> StrLt(it.sk, page[|page| - 1].sk)
    ensures Descending(page + [it])
  {
    var p := page + [it];
    forall i, j | 0 <= i < j < |p| ensures StrLt(p[j].sk, p[i].sk) {
      if j == |page| && i < |page| - 1 {
        StrLeTotal(page[|page| - 1].sk, page[i].sk);
        StrLtTrans(it.sk, page[|page| - 1].sk, page[i].sk);
      }
    }
  }

  lemma RestBelow(rest: set<Key>, m: Key)
    requires m in rest && forall x :: x in rest ==> StrLe(x.sk, m.sk)
    requires forall x :: x in rest ==> x.pk == m.pk
    ensures forall x :: x in rest - {m} ==> StrLt(x.sk, m.sk)
  {
  }

  /** The keys of a page's items in partition `pk`. */
  ghost function PageKeys(page: seq<Item>, pk: string): set<Key> {
    set i | 0 <= i < |page| :: Key(pk, page[i].sk)
  }

  /** The keys of `ks` at or above sort key `sk`. */
  ghost function KeysFrom(ks: set<Key>, sk: string): set<Key> {
    set k | k in ks && StrLe(sk, k.sk)
  }

  lemma {:induction false} SubsetCard<T>(a: set<T>, b: set<T>)
    requires a <= b
    ensures |a| <= |b|
    decreases |b|
  {
    if a != {} {
      var x :| x in a;
      SubsetCard(a - {x}, b - {x});
    }
  }

  /** A strictly descending page has as many distinct keys as items. */
  lemma {:induction false} PageKeysCard(page: seq<Item>, pk: string)
    requires Descending(page)
    ensures |PageKeys(page, pk)| == |page|
  {
    if page != [] {
      var init := page[..|page| - 1];
      assert Descending(init) by {
        forall i, j | 0 <= i < j < |init| ensures StrLt(init[j].sk, init[i].sk) {
          assert init[i] == page[i] && init[j] == page[j];
        }
      }
      PageKeysCard(init, pk);
      PageKeysSnoc(page, pk);
    }
  }

  lemma PageKeysSnoc(page: seq<Item>, pk: string)
    requires page != [] && Descending(page)
    ensures PageKeys(page, pk) == PageKeys(page[..|page| - 1], pk) + {Key(pk, page[|page| - 1].sk)}
    ensures Key(pk, page[|page| - 1].sk) !in PageKeys(page[..|page| - 1], pk)
  {
    var init := page[..|page| - 1];
    var k := Key(pk, page[|page| - 1].sk);
    forall x | x in PageKeys(page, pk) ensures x in PageKeys(init, pk) + {k} {
      var i :| 0 <= i < |page| && x == Key(pk, page[i].sk);
      if i < |init| { assert x == Key(pk, init[i].sk); }
    }
    forall x | x in PageKeys(init, pk) ensures x in PageKeys(page, pk) {
      var i :| 0 <= i < |init| && x == Key(pk, init[i].sk);
      assert x == Key(pk, page[i].sk);
    }
    assert k in PageKeys(page, pk) by { assert k == Key(pk, page[|page| - 1].sk); }
    forall i | 0 <= i < |init| ensures Key(pk, init[i].sk) != k {
      assert init[i] == page[i];
      assert StrLt(page[|page| - 1].sk, page[i].sk);
    }
  }

  /** Raising the sort key past an element of `ks` strictly shrinks the keys above it. */
  lemma KeysFromShrinks(ks: set<Key>, a: Key, b: string)
    requires a in ks && StrLt(a.sk, b)
    ensures |KeysFrom(ks, b)| < |KeysFrom(ks, a.sk)|
  {
    var lo := KeysFrom(ks, a.sk);
    var hi := KeysFrom(ks, b);
    forall x | x in hi ensures x in lo - {a} {
      StrLeTrans(a.sk, b, x.sk);
      if x == a { StrLeAntisym(a.sk, b); }
    }
    StrLeTotal(a.sk, a.sk);
    SubsetCard(hi, lo - {a});
  }

  /** The listing entry of a header. */
  function MetaViewOf(d: Data): MetaView
    requires d.SessionMeta?
  {
    MetaView(d.sessionId, d.tutorName, d.startedAt, d.endedAt, d.duration, d.turnCount, d.wordCount, d.status)
  }

  function MessageViewOf(d: Data): MessageView
    requires d.Message?
  {
    MessageView(d.role, d.content, d.translation, d.timestamp, d.turnNumber)
  }

  /** The header after `end_session`'s update. */
  function Ended(d: Data, now: string, req: Request): (r: Data)
    requires d.SessionMeta?
    ensures r.SessionMeta?
    ensures r.endedAt == Some(now) && r.status == "completed"
    ensures r.duration == req.duration.GetOr(0) && r.turnCount == req.turnCount.GetOr(0)
    ensures r.wordCount == req.wordCount.GetOr(0)
    ensures r.(endedAt := d.endedAt, duration := d.duration, turnCount := d.turnCount,
               wordCount := d.wordCount, status := d.status) == d
  {
    d.(endedAt := Some(now), duration := req.duration.GetOr(0), turnCount := req.turnCount.GetOr(0),
       wordCount := req.wordCount.GetOr(0), status := "completed")
  }

  /** `not body.get('message')`: the message is absent or an empty object. */
  predicate MessageFalsy(m: Option<MessageIn>) {
    m.None? || m.value == MessageIn(None, None, None, None)
  }

  /** The counters of one day. */
  datatype Usage = Usage(chatCount: int, ttsCount: int, analyzeCount: int)

  /** The answer of `handle_increment_usage`: the three counters after the update and the Korean date. */
  datatype Incremented = Incremented(counts: Usage, date: string)

  function Count(counts: map<string, int>, field: string): int {
    if field in counts then counts[field] else 0
  }

  function UsageOf(counts: map<string, int>): Usage {
    Usage(Count(counts, "chatCount"), Count(counts, "ttsCount"), Count(counts, "analyzeCount"))
  }

  /** `SET f = if_not_exists(f, 0) + 1`. */
  function Bump(counts: map<string, int>, field: string): (r: map<string, int>)
    ensures r.Keys == counts.Keys + {field}
    ensures Count(r, field) == Count(counts, field) + 1
    ensures forall f :: f in counts && f != field ==> r[f] == counts[f]
  {
    counts[field := Count(counts, field) + 1]
  }

  /** Raising one counter of a record moves exactly that counter of the report by one. */
  lemma BumpOne(counts: map<string, int>, usageType: string)
    ensures usageType == "chat" ==>
      UsageOf(Bump(counts, "chatCount")) == UsageOf(counts).(chatCount := UsageOf(counts).chatCount + 1)
    ensures usageType == "tts" ==>
      UsageOf(Bump(counts, "ttsCount")) == UsageOf(counts).(ttsCount := UsageOf(counts).ttsCount + 1)
    ensures usageType == "analyze" ==>
      UsageOf(Bump(counts, "analyzeCount")) == UsageOf(counts).(analyzeCount := UsageOf(counts).analyzeCount + 1)
    ensures usageType !in {"chat", "tts", "analyze"} ==> UsageOf(Bump(counts, usageType + "Count")) == UsageOf(counts)
  {
    if usageType !in {"chat", "tts", "analyze"} {
      SuffixCancel(usageType, "chat", "Count");
      SuffixCancel(usageType, "tts", "Count");
      SuffixCancel(usageType, "analyze", "Count");
    }
  }

  lemma SuffixCancel(a: string, b: string, suffix: string)
    ensures a + suffix == b + suffix ==> a == b
  {
    if a + suffix == b + suffix {
      assert a == (a + suffix)[..|a|];
    }
  }

  /** A new header falls into its owner's listing range and into its session's index entry. */
  lemma MetaKeyListed(device: string, now: string, sessionId: string)
    ensures IsPrefix("SESSION#", MetaKey(device, now, sessionId).sk)
    ensures MetaKey(device, now, sessionId).pk == DevicePk(device)
    ensures !IsPrefix("USAGE#", MetaKey(device, now, sessionId).sk)
  {
    assert MetaKey(device, now, sessionId).sk[0] == 'S';
  }

  /** A message shares the listing prefix but is told apart from a header by its index sort key. */
  lemma MessageKeyApart(device: string, sessionId: string, now: string)
    ensures IsPrefix("SESSION#", MessageKey(device, sessionId, now).sk)
    ensures MessageKey(device, sessionId, now).pk == DevicePk(device)
    ensures "MSG#" + now != "META"
  {
    assert ("MSG#" + now)[1] == 'S';
  }

  /** What `get_usage` answers. */
  datatype UsageView = UsageView(usage: Usage, date: string, plan: string, limits: map<string, int>,
                                 resetTime: string)

  const DefaultLimits: map<string, int> := map["dailyChatCount" := 50, "dailyTtsCount" := 100,
                                               "dailyAnalyzeCount" := 10]

  datatype SessionList = SessionList(sessions: seq<SessionSummary>, lastKey: Option<Key>, hasMore: bool)
  datatype Detail = Detail(session: Option<MetaView>, messages: seq<MessageView>)
  datatype MemoryView = MemoryView(memory: Memory.Mem, updatedAt: Option<string>, note: Option<string>)

  const SessionArgsRequired := "userId/deviceId and sessionId are required"
  const UserRequired := "userId or deviceId is required"

  /**
   * The scan over the index query's items in `handle_get_session_detail`:
   * the header of the last `META` item met and the views of the messages,
   * in the order found.
   */
  method SplitDetail(found: seq<Item>) returns (meta: Option<MetaView>, msgs: seq<MessageView>)
    ensures meta.Some? <==> exists t :: 0 <= t < |found| && found[t].data.SessionMeta?
    ensures meta.Some? ==> exists t :: (0 <= t < |found| && found[t].data.SessionMeta? && MetaViewOf(found[t].data) == meta.value
      && forall u :: t < u < |found| ==> !found[u].data.SessionMeta?)
    ensures forall m :: m in msgs <==> exists t :: 0 <= t < |found| && found[t].data.Message? && MessageViewOf(found[t].data) == m
  {
    meta := None;
    msgs := [];
    var j := 0;
    while j < |found|
      invariant 0 <= j <= |found|
      invariant meta.Some? <==> exists t :: 0 <= t < j && found[t].data.SessionMeta?
      invariant meta.Some? ==> exists t :: (0 <= t < j && found[t].data.SessionMeta? && MetaViewOf(found[t].data) == meta.value
        && forall u :: t < u < j ==> !found[u].data.SessionMeta?)
      invariant forall m :: m in msgs <==> exists t :: 0 <= t < j && found[t].data.Message? && MessageViewOf(found[t].data) == m
    {
      var d := found[j].data;
      if d.SessionMeta? {
        meta := Some(MetaViewOf(d));
      } else if d.Message? {
        msgs := msgs + [MessageViewOf(d)];
      }
      j := j + 1;
    }
  }

  /** Every item is stored under its own key. */
  ghost predicate KeysMatch(items: map<Key, Item>) {
    forall k :: k in items ==> items[k].pk == k.pk && items[k].sk == k.sk
  }

  /** Whether `it` is the item stored under its own key in partition `pk`. */
  ghost predicate StoredIn(items: map<Key, Item>, it: Item, pk: string) {
    it.pk == pk && Key(pk, it.sk) in items && items[Key(pk, it.sk)] == it
  }

  /** A header in range of the listing: partition `pk`, a `SESSION#` sort key below the start key. */
  ghost predicate WantedIn(items: map<Key, Item>, k: Key, pk: string, start: Option<Key>) {
    k in items && InRange(items[k], pk, "SESSION#", start) && items[k].data.SessionMeta?
  }

  /** `Walked` over a given table. */
  ghost predicate WalkedIn(items: map<Key, Item>, pk: string, start: Option<Key>, keys: seq<Key>,
                           sessions: seq<SessionSummary>) {
    && |keys| == |sessions|
    && (forall i :: 0 <= i < |keys| ==>
         WantedIn(items, keys[i], pk, start) && sessions[i] == Summarize(items[keys[i]].data))
    && (forall i, j :: 0 <= i < j < |keys| ==> StrLt(keys[j].sk, keys[i].sk))
    && (keys != [] ==> forall k :: WantedIn(items, k, pk, start) && StrLe(keys[|keys| - 1].sk, k.sk) ==> k in keys)
  }

  /** `WalkedTo` over a given table. */
  ghost predicate WalkedToIn(items: map<Key, Item>, pk: string, start: Option<Key>, cur: Key, keys: seq<Key>) {
    && (forall i :: 0 <= i < |keys| ==> StrLe(cur.sk, keys[i].sk))
    && (forall k :: WantedIn(items, k, pk, start) && StrLe(cur.sk, k.sk) ==> k in keys)
  }

  /**
   * The keys of the first `m` headers of a page are headers of the range
   * below `current`, descending, with their entries.
   */
  lemma HeaderKeysOfPage(items: map<Key, Item>, pk: string, start: Option<Key>, current: Option<Key>,
                         page: seq<Item>, m: nat, nk: seq<Key>, hs: seq<SessionSummary>)
    requires KeysMatch(items)
    requires current.None? ==> start.None?
    requires current.Some? && start.Some? ==> StrLe(current.value.sk, start.value.sk)
    requires forall i :: 0 <= i < |page| ==> StoredIn(items, page[i], pk) && InRange(page[i], pk, "SESSION#", current)
    requires Descending(page)
    requires m <= |Headers(page)| && nk == KeysAt(page, HeaderIdx(page)[..m]) && hs == Headers(page)[..m]
    ensures |nk| == |hs| == m
    ensures forall t :: 0 <= t < m ==> WantedIn(items, nk[t], pk, start) && hs[t] == Summarize(items[nk[t]].data)
    ensures current.Some? ==> forall t :: 0 <= t < m ==> StrLt(nk[t].sk, current.value.sk)
    ensures forall t1, t2 :: 0 <= t1 < t2 < m ==> StrLt(nk[t2].sk, nk[t1].sk)
  {
    HeaderIdxHeads(page);
    HeaderIdxRises(page);
    var idx := HeaderIdx(page);
    forall t | 0 <= t < m
      ensures WantedIn(items, nk[t], pk, start) && hs[t] == Summarize(items[nk[t]].data)
      ensures current.Some? ==> StrLt(nk[t].sk, current.value.sk)
    {
      var it := page[idx[t]];
      assert StoredIn(items, it, pk) && InRange(it, pk, "SESSION#", current);
      assert nk[t] == Key(pk, it.sk);
      WidenRange(it, pk, current, start);
    }
    forall t1, t2 | 0 <= t1 < t2 < m ensures StrLt(nk[t2].sk, nk[t1].sk) {
      assert idx[t1] < idx[t2];
    }
  }

  /** Walking the first `m` headers of the page after `current` extends a walk that reached `current`. */
  lemma WalkStep(items: map<Key, Item>, pk: string, start: Option<Key>, current: Option<Key>, page: seq<Item>,
                 keys: seq<Key>, sessions: seq<SessionSummary>, m: nat,
                 nk: seq<Key>, hs: seq<SessionSummary>, ks: seq<Key>, out: seq<SessionSummary>)
    requires KeysMatch(items)
    requires current.None? ==> start.None?
    requires current.Some? && start.Some? ==> StrLe(current.value.sk, start.value.sk)
    requires WalkedIn(items, pk, start, keys, sessions)
    requires current.Some? ==> WalkedToIn(items, pk, start, current.value, keys)
    requires current.None? ==> keys == []
    requires forall i :: 0 <= i < |page| ==> StoredIn(items, page[i], pk) && InRange(page[i], pk, "SESSION#", current)
    requires Descending(page)
    requires forall k :: k in items && InRange(items[k], pk, "SESSION#", current) && items[k] !in page ==>
      |page| == PageLimit && StrLt(k.sk, page[|page| - 1].sk)
    requires m <= |Headers(page)| && nk == KeysAt(page, HeaderIdx(page)[..m]) && hs == Headers(page)[..m]
    requires ks == keys + nk && out == sessions + hs
    ensures WalkedIn(items, pk, start, ks, out)
  {
    HeaderKeysOfPage(items, pk, start, current, page, m, nk, hs);
    WalkEntries(items, pk, start, keys, sessions, nk, hs, ks, out);
    WalkOrder(current, keys, nk, ks);
    if m > 0 {
      TakenCover(page, m, nk);
    }
    WalkTail(items, pk, start, current, page, keys, nk, ks);
  }

  /** The walked keys and the new page's keys line up with their entries. */
  lemma WalkEntries(items: map<Key, Item>, pk: string, start: Option<Key>, keys: seq<Key>,
                    sessions: seq<SessionSummary>, nk: seq<Key>, hs: seq<SessionSummary>,
                    ks: seq<Key>, out: seq<SessionSummary>)
    requires |keys| == |sessions| && |nk| == |hs|
    requires forall i :: 0 <= i < |keys| ==>
      WantedIn(items, keys[i], pk, start) && sessions[i] == Summarize(items[keys[i]].data)
    requires forall t :: 0 <= t < |nk| ==> WantedIn(items, nk[t], pk, start) && hs[t] == Summarize(items[nk[t]].data)
    requires ks == keys + nk && out == sessions + hs
    ensures |ks| == |out|
    ensures forall i :: 0 <= i < |ks| ==> WantedIn(items, ks[i], pk, start) && out[i] == Summarize(items[ks[i]].data)
  {
    forall i | 0 <= i < |ks| ensures WantedIn(items, ks[i], pk, start) && out[i] == Summarize(items[ks[i]].data) {
      if i >= |keys| {
        assert ks[i] == nk[i - |keys|] && out[i] == hs[i - |keys|];
      } else {
        assert ks[i] == keys[i] && out[i] == sessions[i];
      }
    }
  }

  /** No header of the range from the top down to the last key walked on the page is missing. */
  /**
   * A wanted header at or above a key that is itself at or above the page's
   * lowest key is either walked before the page or on the page.
   */
  lemma WantedPlace(items: map<Key, Item>, pk: string, start: Option<Key>, current: Option<Key>,
                    page: seq<Item>, keys: seq<Key>, k: Key, low: string)
    requires KeysMatch(items)
    requires current.Some? ==> WalkedToIn(items, pk, start, current.value, keys)
    requires forall k :: k in items && InRange(items[k], pk, "SESSION#", current) && items[k] !in page ==>
      |page| == PageLimit && StrLt(k.sk, page[|page| - 1].sk)
    requires page != [] && StrLe(page[|page| - 1].sk, low)
    requires WantedIn(items, k, pk, start) && StrLe(low, k.sk)
    ensures k in keys || items[k] in page
  {
    if current.Some? && StrLe(current.value.sk, k.sk) {
      assert k in keys;
    } else {
      if current.Some? { StrLeTotal(current.value.sk, k.sk); }
      assert InRange(items[k], pk, "SESSION#", current);
      if items[k] !in page {
        StrLtTrans(k.sk, page[|page| - 1].sk, low);
        StrLeAntisym(low, k.sk);
        assert false;
      }
    }
  }

  /**
   * The fourth clause of `WalkedIn` survives walking keys `nk` off a page
   * when every header of the page at or above the last of them is among them.
   */
  lemma WalkTail(items: map<Key, Item>, pk: string, start: Option<Key>, current: Option<Key>,
                 page: seq<Item>, keys: seq<Key>, nk: seq<Key>, ks: seq<Key>)
    requires KeysMatch(items)
    requires keys != [] ==> forall k :: WantedIn(items, k, pk, start) && StrLe(keys[|keys| - 1].sk, k.sk) ==> k in keys
    requires current.Some? ==> WalkedToIn(items, pk, start, current.value, keys)
    requires forall k :: k in items && InRange(items[k], pk, "SESSION#", current) && items[k] !in page ==>
      |page| == PageLimit && StrLt(k.sk, page[|page| - 1].sk)
    requires nk != [] ==> page != [] && StrLe(page[|page| - 1].sk, nk[|nk| - 1].sk)
    requires nk != [] ==> forall s :: 0 <= s < |page| && page[s].data.SessionMeta? && StrLe(nk[|nk| - 1].sk, page[s].sk) ==>
      Key(page[s].pk, page[s].sk) in nk
    requires ks == keys + nk
    ensures ks != [] ==> forall k :: WantedIn(items, k, pk, start) && StrLe(ks[|ks| - 1].sk, k.sk) ==> k in ks
  {
    if nk == [] {
      assert ks == keys;
      return;
    }
    assert ks[|ks| - 1] == nk[|nk| - 1];
    var low := nk[|nk| - 1].sk;
    forall k | WantedIn(items, k, pk, start) && StrLe(low, k.sk) ensures k in ks {
      WantedPlace(items, pk, start, current, page, keys, k, low);
      if k !in keys {
        var s :| 0 <= s < |page| && page[s] == items[k];
        assert Key(page[s].pk, page[s].sk) == k;
      }
    }
  }

  /** After a page walked to its end, every key walked is at or above the page's last key. */
  lemma WalkReachAbove(pk: string, current: Option<Key>, page: seq<Item>,
                       keys: seq<Key>, nk: seq<Key>, ks: seq<Key>, last: Key)
    requires current.Some? ==> forall i :: 0 <= i < |keys| ==> StrLe(current.value.sk, keys[i].sk)
    requires current.None? ==> keys == []
    requires forall i :: 0 <= i < |page| ==> InRange(page[i], pk, "SESSION#", current)
    requires page != [] && last.sk == page[|page| - 1].sk
    requires forall t :: 0 <= t < |nk| ==> StrLe(last.sk, nk[t].sk)
    requires ks == keys + nk
    ensures forall i :: 0 <= i < |ks| ==> StrLe(last.sk, ks[i].sk)
  {
    if current.Some? {
      assert InRange(page[|page| - 1], pk, "SESSION#", current);
      forall i | 0 <= i < |keys| ensures StrLe(last.sk, ks[i].sk) {
        assert ks[i] == keys[i];
        StrLtTrans(last.sk, current.value.sk, ks[i].sk);
      }
    }
    forall i | |keys| <= i < |ks| ensures StrLe(last.sk, ks[i].sk) {
      assert ks[i] == nk[i - |keys|];
    }
  }

  /** After a page walked to its end, every wanted header at or above the page's last key is walked. */
  lemma WalkReachCovers(items: map<Key, Item>, pk: string, start: Option<Key>, current: Option<Key>, page: seq<Item>,
                        keys: seq<Key>, nk: seq<Key>, ks: seq<Key>, last: Key)
    requires KeysMatch(items)
    requires current.Some? ==> WalkedToIn(items, pk, start, current.value, keys)
    requires forall k :: k in items && InRange(items[k], pk, "SESSION#", current) && items[k] !in page ==>
      |page| == PageLimit && StrLt(k.sk, page[|page| - 1].sk)
    requires page != [] && last.sk == page[|page| - 1].sk
    requires forall s :: 0 <= s < |page| && page[s].data.SessionMeta? ==> Key(page[s].pk, page[s].sk) in nk
    requires ks == keys + nk
    ensures forall k :: WantedIn(items, k, pk, start) && StrLe(last.sk, k.sk) ==> k in ks
  {
    StrLeTotal(last.sk, last.sk);
    forall k | WantedIn(items, k, pk, start) && StrLe(last.sk, k.sk) ensures k in ks {
      WantedPlace(items, pk, start, current, page, keys, k, last.sk);
      if k !in keys {
        var s :| 0 <= s < |page| && page[s] == items[k];
        assert Key(page[s].pk, page[s].sk) == k;
      }
    }
  }

  /** Before the first page nothing lies at or above the start key. */
  lemma StartReached(items: map<Key, Item>, pk: string, start: Key)
    requires KeysMatch(items)
    ensures WalkedToIn(items, pk, Some(start), start, [])
  {
    forall k | WantedIn(items, k, pk, Some(start)) ensures !StrLe(start.sk, k.sk) {
      if StrLe(start.sk, k.sk) {
        StrLeAntisym(start.sk, k.sk);
        assert false;
      }
    }
  }

  /**
   * Two strictly descending key sequences that agree on their first `i`
   * keys agree at `i` as well when the second holds every key of the first
   * at or above its own last key and has the lower key at `i`: that is how
   * two walks of one range compare.
   */
  lemma WalkAgreeAt(k1: seq<Key>, k2: seq<Key>, i: nat)
    requires forall a, b :: 0 <= a < b < |k1| ==> StrLt(k1[b].sk, k1[a].sk)
    requires forall a, b :: 0 <= a < b < |k2| ==> StrLt(k2[b].sk, k2[a].sk)
    requires k2 != [] ==> forall a :: 0 <= a < |k1| && StrLe(k2[|k2| - 1].sk, k1[a].sk) ==> k1[a] in k2
    requires i < |k1| && i < |k2| && forall t :: 0 <= t < i ==> k1[t] == k2[t]
    requires StrLe(k2[i].sk, k1[i].sk)
    ensures k1[i] == k2[i]
  {
    var last := k2[|k2| - 1];
    if i < |k2| - 1 {
      assert StrLt(last.sk, k2[i].sk);
      StrLeTrans(last.sk, k2[i].sk, k1[i].sk);
    }
    forall t | 0 <= t < i ensures k2[t] != k1[i] {
      assert StrLt(k1[i].sk, k1[t].sk);
    }
    var j :| 0 <= j < |k2| && k2[j] == k1[i];
    if j < i {
      assert false;
    } else if j > i {
      assert StrLt(k2[j].sk, k2[i].sk);
      StrLeAntisym(k2[i].sk, k1[i].sk);
      assert false;
    }
  }

  /**
   * Two strictly descending key sequences, each holding every key of the
   * other that lies at or above its own last key, agree on their first `i`
   * keys.
   */
  lemma {:induction false} WalkAgree(k1: seq<Key>, k2: seq<Key>, i: nat)
    requires forall a, b :: 0 <= a < b < |k1| ==> StrLt(k1[b].sk, k1[a].sk)
    requires forall a, b :: 0 <= a < b < |k2| ==> StrLt(k2[b].sk, k2[a].sk)
    requires k2 != [] ==> forall a :: 0 <= a < |k1| && StrLe(k2[|k2| - 1].sk, k1[a].sk) ==> k1[a] in k2
    requires k1 != [] ==> forall a :: 0 <= a < |k2| && StrLe(k1[|k1| - 1].sk, k2[a].sk) ==> k2[a] in k1
    requires i <= |k1| && i <= |k2|
    ensures forall t :: 0 <= t < i ==> k1[t] == k2[t]
  {
    if i > 0 {
      WalkAgree(k1, k2, i - 1);
      WalkAgreeStep(k1, k2, i - 1);
    }
  }

  /** Two such sequences that agree on their first `i` keys agree at `i`, whichever key is the lower. */
  lemma WalkAgreeStep(k1: seq<Key>, k2: seq<Key>, i: nat)
    requires forall a, b :: 0 <= a < b < |k1| ==> StrLt(k1[b].sk, k1[a].sk)
    requires forall a, b :: 0 <= a < b < |k2| ==> StrLt(k2[b].sk, k2[a].sk)
    requires k2 != [] ==> forall a :: 0 <= a < |k1| && StrLe(k2[|k2| - 1].sk, k1[a].sk) ==> k1[a] in k2
    requires k1 != [] ==> forall a :: 0 <= a < |k2| && StrLe(k1[|k1| - 1].sk, k2[a].sk) ==> k2[a] in k1
    requires i < |k1| && i < |k2| && forall t :: 0 <= t < i ==> k1[t] == k2[t]
    ensures k1[i] == k2[i]
  {
    StrLeTotal(k1[i].sk, k2[i].sk);
    if StrLe(k2[i].sk, k1[i].sk) {
      WalkAgreeAt(k1, k2, i);
    } else {
      WalkAgreeAt(k2, k1, i);
    }
  }

  /**
   * A walk is fixed by its range and its length: two walks of the same
   * length list the same headers in the same order.
   */
  lemma WalkUnique(items: map<Key, Item>, pk: string, start: Option<Key>, k1: seq<Key>, s1: seq<SessionSummary>,
                   k2: seq<Key>, s2: seq<SessionSummary>)
    requires WalkedIn(items, pk, start, k1, s1) && WalkedIn(items, pk, start, k2, s2)
    requires |k1| == |k2|
    ensures k1 == k2 && s1 == s2
  {
    if k2 != [] {
      forall a | 0 <= a < |k1| && StrLe(k2[|k2| - 1].sk, k1[a].sk) ensures k1[a] in k2 {
        assert WantedIn(items, k1[a], pk, start);
      }
      forall a | 0 <= a < |k2| && StrLe(k1[|k1| - 1].sk, k2[a].sk) ensures k2[a] in k1 {
        assert WantedIn(items, k2[a], pk, start);
      }
    }
    WalkAgree(k1, k2, |k1|);
  }

  /** The conversation table. */
  class Backend {
    var items: map<Key, Item>

    /** Keys agree with the items they hold; headers and counters are where the handlers look for them. */
    ghost predicate Valid()
      reads this
    {
      (forall k :: k in items ==> items[k].pk == k.pk && items[k].sk == k.sk)
      && (forall k :: k in items ==> (items[k].data.SessionMeta? <==> items[k].gsi1sk == Some("META")))
      && (forall k :: k in items && IsPrefix("USAGE#", k.sk) ==> items[k].data.UsageRecord?)
    }

    constructor ()
      ensures Valid() && items == map[]
    {
      items := map[];
    }

    /** The keys a secondary-index query selects. */
    function GsiKeys(gpk: string, gsk: Option<string>): set<Key>
      reads this
    {
      set k | k in items && InGsi(items[k], gpk, gsk)
    }

    /**
     * A secondary-index query: every item under `GSI1PK = gpk` (and
     * `GSI1SK = gsk` when given), in ascending `GSI1SK` order.
     */
    method QueryGsi(gpk: string, gsk: Option<string>) returns (r: seq<Item>)
      requires Valid()
      ensures |r| == |GsiKeys(gpk, gsk)|
      ensures forall i :: 0 <= i < |r| ==>
        InGsi(r[i], gpk, gsk) && Key(r[i].pk, r[i].sk) in items && items[Key(r[i].pk, r[i].sk)] == r[i]
      ensures forall k :: k in GsiKeys(gpk, gsk) ==> items[k] in r
      ensures Sorting.Sorted(r, GsiOrder)
    {
      var all := GsiKeys(gpk, gsk);
      var todo := all;
      var found: seq<Item> := [];
      while todo != {}
        invariant todo <= all
        invariant |found| + |todo| == |all|
        invariant forall i :: 0 <= i < |found| ==>
          InGsi(found[i], gpk, gsk) && Key(found[i].pk, found[i].sk) in items
          && items[Key(found[i].pk, found[i].sk)] == found[i]
        invariant forall k :: k in all - todo ==> items[k] in found
        decreases |todo|
      {
        var k :| k in todo;
        found := found + [items[k]];
        todo := todo - {k};
      }
      GsiOrderPreorder();
      Sorting.SortSorted(found, GsiOrder);
      r := Sorting.Sort(found, GsiOrder);
      forall x ensures x in r <==> x in found {
        assert x in multiset(r) <==> x in multiset(found);
      }
      forall i | 0 <= i < |r|
        ensures InGsi(r[i], gpk, gsk) && Key(r[i].pk, r[i].sk) in items && items[Key(r[i].pk, r[i].sk)] == r[i]
      {
        assert r[i] in found;
      }
    }

    /**
     * One page of a descending query on partition `pk` over sort keys that
     * begin with `prefix`, after the exclusive start key: at most 100 items,
     * greatest sort key first, and the key of the last one when the page is full.
     */
    method QueryPage(pk: string, prefix: string, start: Option<Key>) returns (page: seq<Item>, last: Option<Key>)
      requires Valid()
      ensures |page| <= PageLimit
      ensures forall i :: 0 <= i < |page| ==> Stored(page[i], pk) && InRange(page[i], pk, prefix, start)
      ensures Descending(page)
      ensures forall k :: k in items && InRange(items[k], pk, prefix, start) && items[k] !in page ==>
        |page| == PageLimit && StrLt(k.sk, page[|page| - 1].sk)
      ensures last.Some? <==> |page| == PageLimit
      ensures last.Some? ==> last.value == Key(pk, page[|page| - 1].sk)
      ensures IsCursor(pk, prefix, start, last)
    {
      var cand, rest;
      page, cand, rest := TakeGreatest(pk, prefix, start);
      if |page| == PageLimit {
        last := Some(Key(pk, page[|page| - 1].sk));
      } else {
        last := None;
      }
      QueryEnd(pk, prefix, start, cand, rest, page, last);
    }

    /** The loop of a page: up to `PageLimit` times, take the item with the greatest remaining key. */
    method TakeGreatest(pk: string, prefix: string, start: Option<Key>)
      returns (page: seq<Item>, cand: set<Key>, rest: set<Key>)
      requires Valid()
      ensures PageLoop(pk, prefix, start, cand, rest, page)
      ensures |page| <= PageLimit && (|page| == PageLimit || rest == {})
    {
      cand := set k | k in items && k.pk == pk && InRange(items[k], pk, prefix, start);
      rest := cand;
      page := [];
      while |page| < PageLimit && rest != {}
        invariant PageLoop(pk, prefix, start, cand, rest, page)
        invariant |page| <= PageLimit
        decreases |rest|
      {
        MaxExists(rest);
        var m :| m in rest && forall x :: x in rest ==> StrLe(x.sk, m.sk);
        PageStep(pk, prefix, start, cand, rest, page, m);
        page := page + [items[m]];
        rest := rest - {m};
      }
    }

    /** Where the page loop stops, every item of the range left out lies below the page. */
    lemma QueryEnd(pk: string, prefix: string, start: Option<Key>, cand: set<Key>, rest: set<Key>,
                   page: seq<Item>, last: Option<Key>)
      requires Valid()
      requires PageLoop(pk, prefix, start, cand, rest, page)
      requires |page| <= PageLimit && (|page| == PageLimit || rest == {})
      requires last == if |page| == PageLimit then Some(Key(pk, page[|page| - 1].sk)) else None
      ensures forall k :: k in items && InRange(items[k], pk, prefix, start) && items[k] !in page ==>
        |page| == PageLimit && StrLt(k.sk, page[|page| - 1].sk)
      ensures IsCursor(pk, prefix, start, last)
    {
      forall k | k in items && InRange(items[k], pk, prefix, start) && items[k] !in page
        ensures |page| == PageLimit && StrLt(k.sk, page[|page| - 1].sk)
      {
        assert k in cand;
      }
      PageCursor(pk, prefix, start, page, last);
    }

    /** The invariant of the page loop: `cand` is the range, the keys taken out of `rest` are on the page,
        the page is stored, in range and descending, and every key still in `rest` lies below it. */
    ghost predicate PageLoop(pk: string, prefix: string, start: Option<Key>, cand: set<Key>, rest: set<Key>, page: seq<Item>)
      reads this
    {
      && cand == (set k | k in items && k.pk == pk && InRange(items[k], pk, prefix, start))
      && rest <= cand
      && (forall k :: k in cand && k !in rest ==> items[k] in page)
      && (forall i :: 0 <= i < |page| ==> Stored(page[i], pk) && InRange(page[i], pk, prefix, start))
      && Descending(page)
      && (page != [] ==> forall k :: k in rest ==> StrLt(k.sk, page[|page| - 1].sk))
    }

    /** One round of `QueryPage`: taking the largest remaining key keeps the page's invariants. */
    lemma PageStep(pk: string, prefix: string, start: Option<Key>, cand: set<Key>, rest: set<Key>, page: seq<Item>, m: Key)
      requires Valid()
      requires PageLoop(pk, prefix, start, cand, rest, page)
      requires m in rest && forall x :: x in rest ==> StrLe(x.sk, m.sk)
      ensures PageLoop(pk, prefix, start, cand, rest - {m}, page + [items[m]])
    {
      var it := items[m];
      assert it.sk == m.sk && m.pk == pk;
      assert Stored(it, pk);
      ExtendDescending(page, it);
      RestBelow(rest, m);
      var p := page + [it];
      forall i | 0 <= i < |p| ensures Stored(p[i], pk) && InRange(p[i], pk, prefix, start) {
        if i < |page| { assert p[i] == page[i]; }
      }
      forall k | k in cand && k !in rest - {m} ensures items[k] in p {
        if k == m { assert p[|page|] == it; } else { assert items[k] in page; }
      }
      assert p[|p| - 1] == it;
    }

    /** The keys a query on `pk` over sort keys beginning with `prefix`, after `start`, selects. */
    ghost function RangeKeys(pk: string, prefix: string, start: Option<Key>): set<Key>
      reads this
    {
      set k | k in items && InRange(items[k], pk, prefix, start)
    }

    /**
     * The continuation key of a page of `PageLimit` items: none when fewer
     * keys remain in the range, otherwise the key with exactly `PageLimit`
     * keys of the range at or above it, the last one the page holds.
     */
    ghost predicate IsCursor(pk: string, prefix: string, start: Option<Key>, last: Option<Key>)
      reads this
    {
      var ks := RangeKeys(pk, prefix, start);
      (last.None? <==> |ks| < PageLimit)
      && (last.Some? ==> last.value in ks && |KeysFrom(ks, last.value.sk)| == PageLimit)
    }

    /** Each key of `cursors` is the continuation key of the page started at the one before. */
    ghost predicate CursorChain(pk: string, cursors: seq<Option<Key>>)
      reads this
    {
      forall i :: 0 <= i < |cursors| - 1 ==> IsCursor(pk, "SESSION#", cursors[i], cursors[i + 1])
    }

    lemma ChainSnoc(pk: string, cursors: seq<Option<Key>>, last: Option<Key>)
      requires cursors != [] && CursorChain(pk, cursors)
      requires IsCursor(pk, "SESSION#", cursors[|cursors| - 1], last)
      ensures CursorChain(pk, cursors + [last])
    {
      var c := cursors + [last];
      forall i | 0 <= i < |c| - 1 ensures IsCursor(pk, "SESSION#", c[i], c[i + 1]) {
        if i < |cursors| - 1 { assert c[i] == cursors[i] && c[i + 1] == cursors[i + 1]; }
      }
    }

    /** A range has one continuation key at most. */
    lemma CursorIsUnique(pk: string, prefix: string, start: Option<Key>, l1: Option<Key>, l2: Option<Key>)
      requires Valid()
      requires IsCursor(pk, prefix, start, l1) && IsCursor(pk, prefix, start, l2)
      ensures l1 == l2
    {
      if l1.Some? {
        var ks := RangeKeys(pk, prefix, start);
        var k1, k2 := l1.value, l2.value;
        StrLeTotal(k1.sk, k2.sk);
        if k1.sk != k2.sk {
          if StrLe(k1.sk, k2.sk) {
            KeysFromShrinks(ks, k1, k2.sk);
          } else {
            KeysFromShrinks(ks, k2, k1.sk);
          }
        }
      }
    }

    /** The key of a page's last item is the page's continuation key. */
    lemma PageCursor(pk: string, prefix: string, start: Option<Key>, page: seq<Item>, last: Option<Key>)
      requires Valid()
      requires |page| <= PageLimit
      requires forall i :: 0 <= i < |page| ==> Stored(page[i], pk) && InRange(page[i], pk, prefix, start)
      requires Descending(page)
      requires forall k :: k in items && InRange(items[k], pk, prefix, start) && items[k] !in page ==>
        |page| == PageLimit && StrLt(k.sk, page[|page| - 1].sk)
      requires last.Some? <==> |page| == PageLimit
      requires last.Some? ==> last.value == Key(pk, page[|page| - 1].sk)
      ensures IsCursor(pk, prefix, start, last)
    {
      var ks := RangeKeys(pk, prefix, start);
      var pks := PageKeys(page, pk);
      PageKeysCard(page, pk);
      forall x | x in pks ensures x in ks {
        var i :| 0 <= i < |page| && x == Key(pk, page[i].sk);
        assert Stored(page[i], pk);
      }
      if |page| < PageLimit {
        forall k | k in ks ensures k in pks {
          var i :| 0 <= i < |page| && page[i] == items[k];
          assert k == Key(pk, page[i].sk);
        }
        SubsetCard(ks, pks);
      } else {
        var top := page[|page| - 1].sk;
        forall k | k in KeysFrom(ks, top) ensures k in pks {
          assert items[k] in page by {
            if items[k] !in page { StrLeAntisym(k.sk, top); }
          }
          var i :| 0 <= i < |page| && page[i] == items[k];
          assert k == Key(pk, page[i].sk);
        }
        forall x | x in pks ensures x in KeysFrom(ks, top) {
          var i :| 0 <= i < |page| && x == Key(pk, page[i].sk);
          if i < |page| - 1 { assert StrLt(top, page[i].sk); } else { StrLeTotal(top, top); }
        }
        assert KeysFrom(ks, top) == pks;
        SubsetCard(pks, ks);
      }
    }

    /** Whether `it` is the item stored under its own key in partition `pk`. */
    ghost predicate Stored(it: Item, pk: string)
      reads this
    {
      StoredIn(items, it, pk)
    }

    /**
     * `handle_start_session`: writes the header of a new session under the
     * requester's partition, indexed under the session id.
     */
    method StartSession(req: Request, clk: Clock) returns (r: Result<string, Failure>)
      requires Valid()
      modifies this
      ensures Valid()
      ensures !Truthy(UserIdOf(req)) || !Truthy(req.sessionId) <==> r.Err?
      ensures r.Err? ==> r.error == Failure(400, SessionArgsRequired) && items == old(items)
      ensures r.Ok? ==> r.value == clk.now
      ensures r.Ok? ==>
        var dev := UserIdOf(req).value;
        var sid := req.sessionId.value;
        var k := MetaKey(dev, clk.now, sid);
        var st := req.settings.GetOr(map[]);
        items == old(items)[k := Item(k.pk, k.sk, Some(SessionGsi(sid)), Some("META"),
          SessionMeta(dev, sid, req.tutorName.GetOr("Gwen"), Get(st, "topic", "daily"), Get(st, "accent", "us"),
                      Get(st, "level", "intermediate"), Get(st, "gender", "female"), st, clk.now, None,
                      0, 0, 0, "active", clk.now, Ttl(clk)))]
    {
      var device := UserIdOf(req);
      if !Truthy(device) || !Truthy(req.sessionId) {
        return Err(Failure(400, SessionArgsRequired));
      }
      var dev := device.value;
      var sid := req.sessionId.value;
      var st := req.settings.GetOr(map[]);
      var k := MetaKey(dev, clk.now, sid);
      assert k.sk[0] == 'S';
      items := items[k := Item(k.pk, k.sk, Some(SessionGsi(sid)), Some("META"),
        SessionMeta(dev, sid, req.tutorName.GetOr("Gwen"), Get(st, "topic", "daily"), Get(st, "accent", "us"),
                    Get(st, "level", "intermediate"), Get(st, "gender", "female"), st, clk.now, None,
                    0, 0, 0, "active", clk.now, Ttl(clk)))];
      return Ok(clk.now);
    }

    /**
     * `handle_end_session`: finds the session's header through the index,
     * refuses a missing session (404) or another device's session (403)
     * before writing, and otherwise records the end and the statistics.
     */
    method EndSession(req: Request, clk: Clock) returns (r: Result<string, Failure>)
      requires Valid()
      modifies this
      ensures Valid()
      ensures r.Err? ==> items == old(items)
      ensures !Truthy(UserIdOf(req)) || !Truthy(req.sessionId) <==> r == Err(Failure(400, SessionArgsRequired))
      ensures (Truthy(UserIdOf(req)) && Truthy(req.sessionId)) ==>
        (r == Err(Failure(404, "Session not found")) <==>
         forall k :: k in old(items) ==> !IsMetaOf(old(items)[k], req.sessionId.value))
      ensures r == Err(Failure(403, "Access denied")) ==>
        exists k :: k in old(items) && IsMetaOf(old(items)[k], req.sessionId.value)
                    && old(items)[k].data.deviceId != UserIdOf(req).value
      ensures (Truthy(UserIdOf(req)) && Truthy(req.sessionId)
               && (exists k :: k in old(items) && IsMetaOf(old(items)[k], req.sessionId.value))
               && forall k :: k in old(items) && IsMetaOf(old(items)[k], req.sessionId.value) ==>
                    old(items)[k].data.deviceId == UserIdOf(req).value) ==> r.Ok?
      ensures r.Ok? ==> r.value == clk.now
      ensures r.Ok? ==>
        exists k :: k in old(items) && IsMetaOf(old(items)[k], req.sessionId.value)
                    && old(items)[k].data.deviceId == UserIdOf(req).value
                    && items == old(items)[k := old(items)[k].(data := Ended(old(items)[k].data, clk.now, req))]
    {
      var device := UserIdOf(req);
      if !Truthy(device) || !Truthy(req.sessionId) {
        return Err(Failure(400, SessionArgsRequired));
      }
      var sid := req.sessionId.value;
      var found := QueryGsi(SessionGsi(sid), Some("META"));
      if found == [] {
        return Err(Failure(404, "Session not found"));
      }
      var head := found[0];
      var k := Key(head.pk, head.sk);
      assert IsMetaOf(items[k], sid);
      if head.data.deviceId != device.value {
        return Err(Failure(403, "Access denied"));
      }
      items := items[k := head.(data := Ended(head.data, clk.now, req))];
      return Ok(clk.now);
    }

    /** `handle_save_message`: writes one message under the requester's partition and the session's index key. */
    method SaveMessage(req: Request, clk: Clock) returns (r: Result<string, Failure>)
      requires Valid()
      modifies this
      ensures Valid()
      ensures !Truthy(UserIdOf(req)) || !Truthy(req.sessionId) || MessageFalsy(req.message) <==> r.Err?
      ensures r.Err? ==> items == old(items)
      ensures r.Err? ==> r.error == Failure(400, "userId/deviceId, sessionId, and message are required")
      ensures r.Ok? ==> r.value == "MSG#" + clk.now
      ensures r.Ok? ==>
        var dev := UserIdOf(req).value;
        var sid := req.sessionId.value;
        var m := req.message.value;
        var k := MessageKey(dev, sid, clk.now);
        items == old(items)[k := Item(k.pk, k.sk, Some(SessionGsi(sid)), Some("MSG#" + clk.now),
          Message(dev, sid, m.role.GetOr("user"), m.content.GetOr(""), m.translation, m.turnNumber.GetOr(0),
                  clk.now, clk.now, Ttl(clk)))]
    {
      var device := UserIdOf(req);
      if !Truthy(device) || !Truthy(req.sessionId) || MessageFalsy(req.message) {
        return Err(Failure(400, "userId/deviceId, sessionId, and message are required"));
      }
      var dev := device.value;
      var sid := req.sessionId.value;
      var m := req.message.value;
      var id := "MSG#" + clk.now;
      var k := MessageKey(dev, sid, clk.now);
      assert k.sk[0] == 'S' && id[1] == 'S';
      items := items[k := Item(k.pk, k.sk, Some(SessionGsi(sid)), Some(id),
        Message(dev, sid, m.role.GetOr("user"), m.content.GetOr(""), m.translation, m.turnNumber.GetOr(0),
                clk.now, clk.now, Ttl(clk)))];
      return Ok(id);
    }

    /** A header in range of the listing: partition `pk`, a `SESSION#` sort key below the start key. */
    ghost predicate Wanted(k: Key, pk: string, start: Option<Key>)
      reads this
    {
      WantedIn(items, k, pk, start)
    }

    /** Whether `s` is the listing entry of some header in range. */
    ghost predicate IsListed(s: SessionSummary, pk: string, start: Option<Key>)
      reads this
    {
      exists k :: Wanted(k, pk, start) && Summarize(items[k].data) == s
    }

    /** The headers already walked past: all of them once the query is exhausted, else those at or above `cur`. */
    ghost predicate AllListed(pk: string, start: Option<Key>, cur: Option<Key>, exhausted: bool,
                              sessions: seq<SessionSummary>)
      reads this
    {
      forall k :: Wanted(k, pk, start) && (exhausted || (cur.Some? && !StrLt(k.sk, cur.value.sk))) ==>
        Summarize(items[k].data) in sessions
    }

    /** After a page is walked in full, every header above the new cursor has been listed. */
    lemma PageListed(pk: string, start: Option<Key>, current: Option<Key>, page: seq<Item>, last: Option<Key>,
                     before: seq<SessionSummary>, sessions: seq<SessionSummary>)
      requires Valid()
      requires current.None? ==> start.None?
      requires current.Some? && start.Some? ==> StrLe(current.value.sk, start.value.sk)
      requires AllListed(pk, start, current, false, before)
      requires forall x :: x in before ==> x in sessions
      requires forall t :: 0 <= t < |page| && page[t].data.SessionMeta? ==> Summarize(page[t].data) in sessions
      requires forall k :: k in items && InRange(items[k], pk, "SESSION#", current) && items[k] !in page ==>
        |page| == PageLimit && StrLt(k.sk, page[|page| - 1].sk)
      requires last.Some? <==> |page| == PageLimit
      requires last.Some? ==> last.value == Key(pk, page[|page| - 1].sk)
      ensures AllListed(pk, start, last, last.None?, sessions)
    {
      forall k | Wanted(k, pk, start) && (last.None? || !StrLt(k.sk, last.value.sk))
        ensures Summarize(items[k].data) in sessions
      {
        if current.Some? && !StrLt(k.sk, current.value.sk) {
          assert Summarize(items[k].data) in before;
        } else {
          assert InRange(items[k], pk, "SESSION#", current);
          var t :| 0 <= t < |page| && page[t] == items[k];
        }
      }
    }

    /**
     * The inner walk of one page: each header is appended, stopping as soon
     * as `limit` entries are collected.
     */
    method ScanPage(page: seq<Item>, sessions: seq<SessionSummary>, limit: int)
      returns (out: seq<SessionSummary>, full: bool)
      requires |sessions| < limit || sessions == []
      ensures full <==> |sessions| + |Headers(page)| >= Max1(limit)
      ensures out == sessions + Headers(page)[..if full then Max1(limit) - |sessions| else |Headers(page)|]
      ensures Gathered(page, sessions, out, !full)
      ensures |out| <= Max1(limit)
    {
      out := sessions;
      full := false;
      var j := 0;
      while j < |page| && !full
        invariant 0 <= j <= |page|
        invariant out == sessions + Headers(page[..j])
        invariant full ==> |out| == Max1(limit) && |out| > |sessions|
        invariant !full ==> |out| < limit || out == sessions
      {
        assert page[..j + 1][..j] == page[..j];
        if page[j].data.SessionMeta? {
          out := out + [Summarize(page[j].data)];
          full := |out| >= limit;
        }
        j := j + 1;
      }
      ScanEnd(page, sessions, out, limit, j, full);
    }

    /**
     * The page loop of `handle_get_sessions`: at most ten fetches, stopping
     * when `limit` headers are collected or the range is exhausted. `cursors`
     * are the start key and the continuation key of each page fetched, and
     * the last of them is returned.
     */
    method CollectSessions(pk: string, limit: int, start: Option<Key>)
      returns (sessions: seq<SessionSummary>, current: Option<Key>, ghost cursors: seq<Option<Key>>, ghost fetches: nat,
               ghost keys: seq<Key>)
      requires Valid()
      ensures Walked(pk, start, keys, sessions)
      ensures 1 <= fetches <= MaxPages
      ensures |cursors| == fetches + 1 && cursors[0] == start && cursors[fetches] == current
      ensures CursorChain(pk, cursors)
      ensures forall i :: 0 < i < fetches ==> cursors[i].Some?
      ensures fetches < MaxPages ==> |sessions| >= limit || current.None?
      ensures forall x :: x in sessions ==> IsListed(x, pk, start)
      ensures |sessions| <= Max1(limit)
      ensures |sessions| < limit ==> AllListed(pk, start, current, current.None?, sessions)
    {
      fetches := 0;
      sessions := [];
      current := start;
      cursors := [start];
      keys := [];
      if current.Some? {
        StrLeTotal(current.value.sk, current.value.sk);
        StartReached(items, pk, current.value);
      }
      var n := 0;
      while n < MaxPages
        invariant 0 <= n <= MaxPages && fetches == n
        invariant |cursors| == n + 1 && cursors[0] == start && cursors[n] == current
        invariant CursorChain(pk, cursors)
        invariant forall i :: 0 < i <= n ==> cursors[i].Some?
        invariant n == 0 ==> current == start && sessions == []
        invariant n > 0 ==> current.Some? && |sessions| < limit
        invariant current.Some? && start.Some? ==> StrLe(current.value.sk, start.value.sk)
        invariant forall x :: x in sessions ==> IsListed(x, pk, start)
        invariant AllListed(pk, start, current, false, sessions)
        invariant |sessions| <= Max1(limit)
        invariant Walked(pk, start, keys, sessions)
        invariant current.Some? ==> WalkedTo(pk, start, current.value, keys)
        invariant n == 0 ==> keys == []
      {
        var last, full;
        sessions, last, full, keys := FetchPage(pk, limit, start, current, sessions, cursors, keys);
        fetches := fetches + 1;
        cursors := cursors + [last];
        current := last;
        n := n + 1;
        if full || |sessions| >= limit || current.None? {
          break;
        }
      }
    }

    /** One round of the page loop: fetch the page after `current` and walk it. */
    method FetchPage(pk: string, limit: int, start: Option<Key>, current: Option<Key>,
                     sessions: seq<SessionSummary>, ghost cursors: seq<Option<Key>>, ghost keys: seq<Key>)
      returns (out: seq<SessionSummary>, last: Option<Key>, full: bool, ghost newKeys: seq<Key>)
      requires Valid()
      requires |sessions| < limit || sessions == []
      requires current.None? ==> start.None?
      requires current.Some? && start.Some? ==> StrLe(current.value.sk, start.value.sk)
      requires forall x :: x in sessions ==> IsListed(x, pk, start)
      requires AllListed(pk, start, current, false, sessions)
      requires cursors != [] && cursors[|cursors| - 1] == current && CursorChain(pk, cursors)
      requires Walked(pk, start, keys, sessions)
      requires current.Some? ==> WalkedTo(pk, start, current.value, keys)
      requires current.None? ==> keys == []
      ensures Walked(pk, start, newKeys, out)
      ensures !full && last.Some? ==> WalkedTo(pk, start, last.value, newKeys)
      ensures CursorChain(pk, cursors + [last])
      ensures last.Some? && start.Some? ==> StrLe(last.value.sk, start.value.sk)
      ensures forall x :: x in out ==> IsListed(x, pk, start)
      ensures full ==> |out| >= limit
      ensures !full ==> AllListed(pk, start, last, last.None?, out)
      ensures |out| <= Max1(limit)
    {
      var page;
      page, last := QueryPage(pk, "SESSION#", current);
      ChainSnoc(pk, cursors, last);
      out, full := ScanPage(page, sessions, limit);
      ghost var m := if full then Max1(limit) - |sessions| else |Headers(page)|;
      ghost var nk := KeysAt(page, HeaderIdx(page)[..m]);
      newKeys := keys + nk;
      WalkStep(items, pk, start, current, page, keys, sessions, m, nk, Headers(page)[..m], newKeys, out);
      if !full && last.Some? {
        assert HeaderIdx(page)[..m] == HeaderIdx(page);
        AllTakenCover(page, nk);
        WalkReachAbove(pk, current, page, keys, nk, newKeys, last.value);
        WalkReachCovers(items, pk, start, current, page, keys, nk, newKeys, last.value);
      }
      PageEntriesListed(pk, start, current, page, sessions, out);
      if !full {
        PageListed(pk, start, current, page, last, sessions, out);
      }
      if last.Some? {
        WidenRange(page[|page| - 1], pk, current, start);
      }
    }

    /** Entries taken from a page of the current range are entries of the listing range. */
    lemma PageEntriesListed(pk: string, start: Option<Key>, current: Option<Key>, page: seq<Item>,
                            before: seq<SessionSummary>, sessions: seq<SessionSummary>)
      requires current.None? ==> start.None?
      requires current.Some? && start.Some? ==> StrLe(current.value.sk, start.value.sk)
      requires forall i :: 0 <= i < |page| ==> Stored(page[i], pk) && InRange(page[i], pk, "SESSION#", current)
      requires forall x :: x in before ==> IsListed(x, pk, start)
      requires forall x :: x in sessions ==>
        (x in before || exists t :: 0 <= t < |page| && page[t].data.SessionMeta? && x == Summarize(page[t].data))
      ensures forall x :: x in sessions ==> IsListed(x, pk, start)
    {
      forall x | x in sessions ensures IsListed(x, pk, start) {
        if x !in before {
          var t :| 0 <= t < |page| && page[t].data.SessionMeta? && x == Summarize(page[t].data);
          WidenRange(page[t], pk, current, start);
          assert Wanted(Key(pk, page[t].sk), pk, start);
        }
      }
    }

    /**
     * `keys` are header keys of the listing range in strictly descending
     * order, `sessions` are their entries, and no header from the top of the
     * range down to the last of them is missing.
     */
    ghost predicate Walked(pk: string, start: Option<Key>, keys: seq<Key>, sessions: seq<SessionSummary>)
      reads this
    {
      WalkedIn(items, pk, start, keys, sessions)
    }

    /** The walk has reached the cursor `cur`: every key walked is at or above it, and every header at or above it is walked. */
    ghost predicate WalkedTo(pk: string, start: Option<Key>, cur: Key, keys: seq<Key>)
      reads this
    {
      WalkedToIn(items, pk, start, cur, keys)
    }

    /**
     * `handle_get_sessions`: walks the requester's `SESSION#` range newest
     * first, at most ten pages of 100 items, keeping the headers until
     * `limit` are collected, then sorts them by start time, newest first,
     * and cuts the list at `limit`.
     */
    method GetSessions(req: Request) returns (r: Result<SessionList, Failure>, ghost fetches: nat,
                                              ghost cursors: seq<Option<Key>>, ghost keys: seq<Key>,
                                              ghost collected: seq<SessionSummary>)
      requires Valid()
      ensures r.Ok? ==> UserIdOf(req).Some? && Walked(DevicePk(UserIdOf(req).value), req.lastKey, keys, collected)
      ensures r.Ok? ==> r.value.sessions == PyTake(Sorting.Sort(collected, NewerFirst), req.limit.GetOr(10))
      ensures fetches <= MaxPages
      ensures !Truthy(UserIdOf(req)) <==> r.Err?
      ensures r.Err? ==> r.error == Failure(400, UserRequired)
      ensures r.Ok? ==> (r.value.hasMore <==> r.value.lastKey.Some?)
      ensures r.Ok? ==> Sorting.Sorted(r.value.sessions, NewerFirst)
      ensures r.Ok? ==> |r.value.sessions| <= Max0(req.limit.GetOr(10))
      ensures r.Ok? ==> forall s :: s in r.value.sessions ==> IsListed(s, DevicePk(UserIdOf(req).value), req.lastKey)
      ensures r.Ok? ==> 1 <= fetches && |cursors| == fetches + 1
      ensures r.Ok? ==> cursors[0] == req.lastKey && r.value.lastKey == cursors[fetches]
      ensures r.Ok? ==> CursorChain(DevicePk(UserIdOf(req).value), cursors)
      ensures r.Ok? && fetches < MaxPages ==>
        |r.value.sessions| >= req.limit.GetOr(10) || r.value.lastKey.None?
      ensures (r.Ok? && |r.value.sessions| < req.limit.GetOr(10)) ==>
        AllListed(DevicePk(UserIdOf(req).value), req.lastKey, r.value.lastKey, r.value.lastKey.None?, r.value.sessions)
      ensures (r.Ok? && !r.value.hasMore && |r.value.sessions| < req.limit.GetOr(10)) ==>
        forall k :: Wanted(k, DevicePk(UserIdOf(req).value), req.lastKey) ==> Summarize(items[k].data) in r.value.sessions
    {
      fetches := 0;
      cursors := [];
      var device := UserIdOf(req);
      if !Truthy(device) {
        return Err(Failure(400, UserRequired)), 0, [], [], [];
      }
      var pk := DevicePk(device.value);
      var limit := req.limit.GetOr(10);
      var sessions, current;
      sessions, current, cursors, fetches, keys := CollectSessions(pk, limit, req.lastKey);
      collected := sessions;
      NewerFirstPreorder();
      Sorting.SortSorted(sessions, NewerFirst);
      var sorted := Sorting.Sort(sessions, NewerFirst);
      var out := PyTake(sorted, limit);
      SortedPrefix(sorted, |out|, NewerFirst);
      forall x | x in out ensures x in sessions {
        assert x in multiset(sorted);
      }
      if |out| < limit {
        forall x | x in sessions ensures x in out {
          assert x in multiset(sessions);
        }
      }
      return Ok(SessionList(out, current, current.Some?)), fetches, cursors, keys, collected;
    }

    /**
     * `handle_get_session_detail`: everything indexed under the session, the
     * header (the last one met, if several) and the messages ordered by turn.
     * The requester is not compared with the owner.
     */
    method GetSessionDetail(req: Request) returns (r: Result<Detail, Failure>)
      requires Valid()
      ensures !Truthy(UserIdOf(req)) || !Truthy(req.sessionId) <==> r.Err?
      ensures r.Err? ==> r.error == Failure(400, SessionArgsRequired)
      ensures r.Ok? ==> (r.value.session.Some? <==> exists k :: k in items && IsMetaOf(items[k], req.sessionId.value))
      ensures r.Ok? && r.value.session.Some? ==>
        exists k :: k in items && IsMetaOf(items[k], req.sessionId.value) && MetaViewOf(items[k].data) == r.value.session.value
      ensures r.Ok? ==> Sorting.Sorted(r.value.messages, ByTurn)
      ensures r.Ok? ==> forall m :: m in r.value.messages <==> IsMessageOf(m, req.sessionId.value)
    {
      if !Truthy(UserIdOf(req)) || !Truthy(req.sessionId) {
        return Err(Failure(400, SessionArgsRequired));
      }
      var sid := req.sessionId.value;
      var found := QueryGsi(SessionGsi(sid), None);
      var meta, msgs := SplitDetail(found);
      ByTurnPreorder();
      Sorting.SortSorted(msgs, ByTurn);
      var sorted := Sorting.Sort(msgs, ByTurn);
      forall m ensures m in sorted <==> m in msgs {
        assert m in multiset(sorted) <==> m in multiset(msgs);
      }
      DetailFound(sid, found);
      return Ok(Detail(meta, sorted));
    }

    /** Whether `m` is the view of a message indexed under session `sessionId`. */
    ghost predicate IsMessageOf(m: MessageView, sessionId: string)
      reads this
    {
      exists k :: k in items && items[k].gsi1pk == Some(SessionGsi(sessionId)) && items[k].data.Message?
                  && MessageViewOf(items[k].data) == m
    }

    /** The index query's items are exactly the session's header and messages. */
    lemma DetailFound(sid: string, found: seq<Item>)
      requires Valid()
      requires forall i :: 0 <= i < |found| ==>
        InGsi(found[i], SessionGsi(sid), None) && Key(found[i].pk, found[i].sk) in items
        && items[Key(found[i].pk, found[i].sk)] == found[i]
      requires forall k :: k in GsiKeys(SessionGsi(sid), None) ==> items[k] in found
      ensures (exists t :: 0 <= t < |found| && found[t].data.SessionMeta?) <==>
              (exists k :: k in items && IsMetaOf(items[k], sid))
      ensures forall t :: 0 <= t < |found| && found[t].data.SessionMeta? ==>
        exists k :: k in items && IsMetaOf(items[k], sid) && items[k] == found[t]
      ensures forall m ::
        ((exists t :: 0 <= t < |found| && found[t].data.Message? && MessageViewOf(found[t].data) == m)
         <==> IsMessageOf(m, sid))
    {
      forall t | 0 <= t < |found| && found[t].data.SessionMeta?
        ensures exists k :: k in items && IsMetaOf(items[k], sid) && items[k] == found[t]
      {
        var k := Key(found[t].pk, found[t].sk);
        assert IsMetaOf(items[k], sid);
      }
      if exists k :: k in items && IsMetaOf(items[k], sid) {
        var k :| k in items && IsMetaOf(items[k], sid);
        assert k in GsiKeys(SessionGsi(sid), None);
        var t :| 0 <= t < |found| && found[t] == items[k];
      }
      forall m | IsMessageOf(m, sid)
        ensures exists t :: 0 <= t < |found| && found[t].data.Message? && MessageViewOf(found[t].data) == m
      {
        var k :| k in items && items[k].gsi1pk == Some(SessionGsi(sid)) && items[k].data.Message?
                 && MessageViewOf(items[k].data) == m;
        assert k in GsiKeys(SessionGsi(sid), None);
        var t :| 0 <= t < |found| && found[t] == items[k];
      }
      forall m | exists t :: 0 <= t < |found| && found[t].data.Message? && MessageViewOf(found[t].data) == m
        ensures IsMessageOf(m, sid)
      {
        var t :| 0 <= t < |found| && found[t].data.Message? && MessageViewOf(found[t].data) == m;
        assert Key(found[t].pk, found[t].sk) in items;
      }
    }

    /**
     * `handle_delete_session`: removes everything indexed under the session,
     * refusing a session with no items (404) or whose header belongs to
     * another device (403) before deleting.
     */
    method DeleteSession(req: Request) returns (r: Result<nat, Failure>)
      requires Valid()
      modifies this
      ensures Valid()
      ensures r.Err? ==> items == old(items)
      ensures !Truthy(UserIdOf(req)) || !Truthy(req.sessionId) <==> r == Err(Failure(400, SessionArgsRequired))
      ensures (Truthy(UserIdOf(req)) && Truthy(req.sessionId)) ==>
        (r == Err(Failure(404, "Session not found")) <==> old(GsiKeys(SessionGsi(req.sessionId.value), None)) == {})
      ensures r == Err(Failure(403, "Access denied")) ==>
        exists k :: k in old(items) && IsMetaOf(old(items)[k], req.sessionId.value)
                    && old(items)[k].data.deviceId != UserIdOf(req).value
      ensures (Truthy(UserIdOf(req)) && Truthy(req.sessionId)
               && old(GsiKeys(SessionGsi(req.sessionId.value), None)) != {}
               && forall k :: k in old(items) && IsMetaOf(old(items)[k], req.sessionId.value) ==>
                    old(items)[k].data.deviceId == UserIdOf(req).value) ==> r.Ok?
      ensures r.Ok? ==> items == old(items) - old(GsiKeys(SessionGsi(req.sessionId.value), None))
      ensures r.Ok? ==> r.value == |old(GsiKeys(SessionGsi(req.sessionId.value), None))|
    {
      var device := UserIdOf(req);
      if !Truthy(device) || !Truthy(req.sessionId) {
        return Err(Failure(400, SessionArgsRequired));
      }
      var sid := req.sessionId.value;
      var keys := GsiKeys(SessionGsi(sid), None);
      var found := QueryGsi(SessionGsi(sid), None);
      if found == [] {
        return Err(Failure(404, "Session not found"));
      }
      var j := 0;
      while j < |found| && !found[j].data.SessionMeta?
        invariant 0 <= j <= |found|
        invariant forall t :: 0 <= t < j ==> !found[t].data.SessionMeta?
      {
        j := j + 1;
      }
      if j < |found| {
        var k := Key(found[j].pk, found[j].sk);
        assert IsMetaOf(items[k], sid);
        if found[j].data.deviceId != device.value {
          return Err(Failure(403, "Access denied"));
        }
      }
      items := items - keys;
      return Ok(|found|);
    }

    /** The stored memory of a user, or the empty document. */
    function StoredMemory(userId: string): Memory.Mem
      reads this
    {
      var k := MemoryKey(userId);
      if k in items && items[k].data.UserMemory? then items[k].data.memory else map[]
    }

    /** `handle_get_usage`: today's counters, zero and the free plan when no record exists. */
    method GetUsage(req: Request, clk: Clock) returns (r: Result<UsageView, Failure>)
      requires Valid()
      ensures !Truthy(UserIdOf(req)) <==> r.Err?
      ensures r.Err? ==> r.error == Failure(400, UserRequired)
      ensures r.Ok? ==> r.value.date == clk.kstDate && r.value.limits == DefaultLimits
      ensures r.Ok? ==> r.value.resetTime == clk.kstDate + "T00:00:00+09:00"
      ensures r.Ok? && UsageKey(UserIdOf(req).value, clk.kstDate) !in items ==>
        r.value.usage == Usage(0, 0, 0) && r.value.plan == "free"
      ensures r.Ok? && UsageKey(UserIdOf(req).value, clk.kstDate) in items ==>
        var d := items[UsageKey(UserIdOf(req).value, clk.kstDate)].data;
        d.UsageRecord? && r.value.usage == UsageOf(d.counts) && r.value.plan == d.plan.GetOr("free")
    {
      var device := UserIdOf(req);
      if !Truthy(device) {
        return Err(Failure(400, UserRequired));
      }
      var k := UsageKey(device.value, clk.kstDate);
      var reset := clk.kstDate + "T00:00:00+09:00";
      if k in items {
        assert IsPrefix("USAGE#", k.sk);
        var d := items[k].data;
        return Ok(UsageView(UsageOf(d.counts), clk.kstDate, d.plan.GetOr("free"), DefaultLimits, reset));
      }
      return Ok(UsageView(Usage(0, 0, 0), clk.kstDate, "free", DefaultLimits, reset));
    }

    /**
     * `handle_increment_usage`: raises `<usageType>Count` (type `chat` by
     * default) of today's record by one, counting a missing field as zero.
     */
    method IncrementUsage(req: Request, clk: Clock) returns (r: Result<Incremented, Failure>)
      requires Valid()
      modifies this
      ensures Valid()
      ensures !Truthy(UserIdOf(req)) <==> r.Err?
      ensures r.Err? ==> r.error == Failure(400, UserRequired) && items == old(items)
      ensures r.Ok? ==>
        var k := UsageKey(UserIdOf(req).value, clk.kstDate);
        var field := req.usageType.GetOr("chat") + "Count";
        var prior := if k in old(items) then old(items)[k].data.counts else map[];
        k in items && items[k].data.UsageRecord? && items == old(items)[k := items[k]]
        && items[k].data.counts == Bump(prior, field)
        && items[k].data.updatedAt == clk.now && items[k].data.ttl == Ttl(clk)
        && items[k].data.plan == (if k in old(items) && old(items)[k].data.UsageRecord? then old(items)[k].data.plan else None)
        && r.value == Incremented(UsageOf(items[k].data.counts), clk.kstDate)
    {
      var device := UserIdOf(req);
      if !Truthy(device) {
        return Err(Failure(400, UserRequired));
      }
      var k := UsageKey(device.value, clk.kstDate);
      var field := req.usageType.GetOr("chat") + "Count";
      assert IsPrefix("USAGE#", k.sk);
      var it;
      if k in items {
        var d := items[k].data;
        it := items[k].(data := UsageRecord(Bump(d.counts, field), d.plan, clk.now, Ttl(clk)));
      } else {
        it := Item(k.pk, k.sk, None, None, UsageRecord(Bump(map[], field), None, clk.now, Ttl(clk)));
      }
      items := items[k := it];
      return Ok(Incremented(UsageOf(it.data.counts), clk.kstDate));
    }

    /**
     * `handle_save_user_memory`: merges the incoming categories into the
     * stored document and writes it back, kept a year longer than other records.
     */
    method SaveUserMemory(req: Request, clk: Clock) returns (r: Result<MemoryView, Failure>)
      requires Valid()
      modifies this
      ensures Valid()
      ensures !Truthy(req.userId) <==> r.Err?
      ensures r.Err? ==> r.error == Failure(400, "userId is required") && items == old(items)
      ensures r.Ok? ==>
        var k := MemoryKey(req.userId.value);
        items == old(items)[k := Item(k.pk, k.sk, None, None,
          UserMemory(req.userId.value, r.value.memory, clk.now, Ttl(clk) + 365 * 24 * 60 * 60))]
        && r.value.updatedAt == Some(clk.now) && StoredMemory(req.userId.value) == r.value.memory
      ensures r.Ok? ==>
        Memory.IsMerge(old(StoredMemory(req.userId.value)), req.memory.GetOr(map[]), r.value.memory)
    {
      var invalid := ValidateRequired([("userId", Truthy(req.userId))]);
      if invalid.Some? {
        ValidateOneMissing("userId");
        return Err(invalid.value);
      }
      var uid := req.userId.value;
      var incoming := req.memory.GetOr(map[]);
      var merged := Memory.MergeMemory(StoredMemory(uid), incoming);
      var k := MemoryKey(uid);
      assert k.sk[0] == 'M';
      items := items[k := Item(k.pk, k.sk, None, None,
        UserMemory(uid, merged, clk.now, Ttl(clk) + 365 * 24 * 60 * 60))];
      return Ok(MemoryView(merged, Some(clk.now), None));
    }

    /** `handle_get_user_memory`: the stored document, or an empty one with a note. */
    method GetUserMemory(req: Request) returns (r: Result<MemoryView, Failure>)
      requires Valid()
      ensures !Truthy(req.userId) <==> r.Err?
      ensures r.Err? ==> r.error == Failure(400, "userId is required")
      ensures r.Ok? ==> r.value.memory == StoredMemory(req.userId.value)
      ensures r.Ok? ==> (r.value.note.Some? <==> MemoryKey(req.userId.value) !in items)
      ensures r.Ok? && r.value.note.Some? ==> r.value.note.value == "No memory found for this user"
    {
      var invalid := ValidateRequired([("userId", Truthy(req.userId))]);
      if invalid.Some? {
        ValidateOneMissing("userId");
        return Err(invalid.value);
      }
      var k := MemoryKey(req.userId.value);
      if k in items {
        var d := items[k].data;
        var at := if d.UserMemory? then Some(d.updatedAt) else None;
        return Ok(MemoryView(StoredMemory(req.userId.value), at, None));
      }
      return Ok(MemoryView(map[], None, Some("No memory found for this user")));
    }
  }
}
