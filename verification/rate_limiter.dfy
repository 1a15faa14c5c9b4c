/** Fixed-window request admission limiter (src/lib/rate-limiter.ts).

    The process-wide cache becomes an explicit `Store` threaded through every
    call, and `Date.now()` becomes the `now` parameter (epoch milliseconds).
    Each (prefix, identifier) pair owns at most one entry, stored under the
    key `prefix + ":" + identifier`. */
module RateLimiter {
  import opened Wrappers
  import Decimal

  /** Message used when a policy has none (or an empty one). */
  const DefaultMessage: string := "Rate limit exceeded"

  /** A policy: window length in ms, quota per window, optional rejection text. */
  datatype Config = Config(windowMs: int, maxRequests: int, message: Option<string>)

  predicate ValidConfig(c: Config) {
    c.windowMs > 0 && c.maxRequests > 0
  }

  /** The named policies of `RATE_LIMITS`. */
  datatype Preset = AuthLogin | AuthSignup | AuthPasswordReset | ApiGeneral | ApiExport | ApiAdmin

  function PresetConfig(p: Preset): (c: Config)
    ensures ValidConfig(c)
    ensures c.message.Some? && |c.message.value| > 0
    ensures p in {AuthLogin, AuthSignup, AuthPasswordReset} ==> c.windowMs >= 15 * 60 * 1000 && c.maxRequests <= 5
    ensures p in {ApiGeneral, ApiExport, ApiAdmin} ==> c.windowMs == 60 * 1000
  {
    match p
    case AuthLogin => Config(15 * 60 * 1000, 5, Some(PresetMessage(p)))
    case AuthSignup => Config(60 * 60 * 1000, 3, Some(PresetMessage(p)))
    case AuthPasswordReset => Config(60 * 60 * 1000, 3, Some(PresetMessage(p)))
    case ApiGeneral => Config(60 * 1000, 60, Some(PresetMessage(p)))
    case ApiExport => Config(60 * 1000, 5, Some(PresetMessage(p)))
    case ApiAdmin => Config(60 * 1000, 100, Some(PresetMessage(p)))
  }

  /** The rejection text of each named policy. */
  function PresetMessage(p: Preset): (m: string)
    ensures |m| > 0
  {
    match p
    case AuthLogin => "Too many login attempts. Please try again in 15 minutes."
    case AuthSignup => "Too many signup attempts. Please try again later."
    case AuthPasswordReset => "Too many password reset requests. Please try again in 1 hour."
    case ApiGeneral => "Too many requests. Please slow down."
    case ApiExport => "Too many export requests. Please wait before exporting again."
    case ApiAdmin => "Rate limit exceeded."
  }

  /** The counter of one window: requests counted so far and the instant the window ends. */
  datatype Entry = Entry(count: int, resetTime: int)

  type Store = map<string, Entry>

  /** `${prefix}:${identifier}`. The prefix and the identifier may both
      contain `:`, so keys are unambiguous only one part at a time (the two
      lemmas below) or when the prefix has no `:` (KeysDistinctColonFreePrefix);
      in general different pairs can share a key (KeyCollision). */
  function Key(prefix: string, identifier: string): string {
    prefix + ":" + identifier
  }

  /** The outcome of `check`. */
  datatype Decision = Decision(allowed: bool, remaining: int, resetTime: int, message: Option<string>)

  datatype Checked = Checked(decision: Decision, store: Store)

  /** JavaScript's `config.message || 'Rate limit exceeded'`: an absent or empty
      message falls back to the default, so the text is never empty. */
  function RejectionMessage(c: Config): (m: string)
    ensures m != ""
    ensures c.message.Some? && c.message.value != "" ==> m == c.message.value
    ensures !(c.message.Some? && c.message.value != "") ==> m == DefaultMessage
  {
    if c.message.Some? && c.message.value != "" then c.message.value else DefaultMessage
  }

  /** True when a check at `now` opens a new window for `key`: no entry, or the
      old window ended strictly before `now`. */
  predicate OpensWindow(store: Store, key: string, now: int) {
    key !in store || now > store[key].resetTime
  }

  /** `RateLimiter.check`: open a fresh window, or count one more request in the
      current one. Rejected requests are counted too. */
  function Check(c: Config, prefix: string, store: Store, identifier: string, now: int): (r: Checked)
    // only the key of this (prefix, identifier) pair is created or changed
    ensures r.store.Keys == store.Keys + {Key(prefix, identifier)}
    ensures forall k :: k in store && k != Key(prefix, identifier) ==> r.store[k] == store[k]
    // a new window starts with count 1 and is always admitted
    ensures OpensWindow(store, Key(prefix, identifier), now) ==>
              && r.store[Key(prefix, identifier)] == Entry(1, now + c.windowMs)
              && r.decision == Decision(true, c.maxRequests - 1, now + c.windowMs, None)
    // inside a window (including now == resetTime) the count grows and the window end is kept
    ensures !OpensWindow(store, Key(prefix, identifier), now) ==>
              && r.store[Key(prefix, identifier)].count == store[Key(prefix, identifier)].count + 1
              && r.store[Key(prefix, identifier)].resetTime == store[Key(prefix, identifier)].resetTime
              && r.decision.resetTime == store[Key(prefix, identifier)].resetTime
              && (r.decision.allowed <==> r.store[Key(prefix, identifier)].count <= c.maxRequests)
    // admitted requests report the quota left; rejected ones report 0 and the message
    ensures r.decision.allowed ==>
              r.decision.remaining == c.maxRequests - r.store[Key(prefix, identifier)].count && r.decision.message.None?
    ensures !r.decision.allowed ==>
              r.decision.remaining == 0 && r.decision.message == Some(RejectionMessage(c))
    ensures r.decision.resetTime == r.store[Key(prefix, identifier)].resetTime
  {
    var key := Key(prefix, identifier);
    if OpensWindow(store, key, now) then
      var entry := Entry(1, now + c.windowMs);
      Checked(Decision(true, c.maxRequests - 1, entry.resetTime, None), store[key := entry])
    else
      var entry := store[key].(count := store[key].count + 1);
      if entry.count > c.maxRequests then
        Checked(Decision(false, 0, entry.resetTime, Some(RejectionMessage(c))), store[key := entry])
      else
        Checked(Decision(true, c.maxRequests - entry.count, entry.resetTime, None), store[key := entry])
  }

  /** `RateLimiter.reset`: forget the entry of one (prefix, identifier) pair. */
  function Reset(prefix: string, store: Store, identifier: string): (r: Store)
    ensures r.Keys == store.Keys - {Key(prefix, identifier)}
    ensures forall k :: k in r ==> r[k] == store[k]
  {
    store - {Key(prefix, identifier)}
  }

  datatype Status = Status(count: int, remaining: int, resetTime: int)

  /** `RateLimiter.getStatus`: a snapshot of the stored entry, if any. There is
      no clock here, so a window that has ended but is still stored is
      reported as it stands. */
  function GetStatus(c: Config, prefix: string, store: Store, identifier: string): (r: Option<Status>)
    ensures r.None? <==> Key(prefix, identifier) !in store
    ensures r.Some? ==>
              && r.value.count == store[Key(prefix, identifier)].count
              && r.value.resetTime == store[Key(prefix, identifier)].resetTime
              && r.value.remaining >= 0
              && r.value.remaining >= c.maxRequests - r.value.count
              && (r.value.remaining == 0 || r.value.remaining == c.maxRequests - r.value.count)
  {
    var key := Key(prefix, identifier);
    if key !in store then None
    else
      var e := store[key];
      Some(Status(e.count, if c.maxRequests - e.count > 0 then c.maxRequests - e.count else 0, e.resetTime))
  }

  // ---------------------------------------------------------------------------
  // Properties relating several calls
  // ---------------------------------------------------------------------------

  /** Decisions of successive checks for one identifier at the given instants. */
  function Run(c: Config, prefix: string, store: Store, identifier: string, times: seq<int>): (r: (seq<Decision>, Store))
    ensures |r.0| == |times|
    decreases |times|
  {
    if |times| == 0 then ([], store)
    else
      var first := Check(c, prefix, store, identifier, times[0]);
      var rest := Run(c, prefix, first.store, identifier, times[1..]);
      ([first.decision] + rest.0, rest.1)
  }

  /** Checks that all fall inside an existing window of count `k`: the i-th of
      them brings the count to k + i + 1 and is admitted iff that is within
      the quota. */
  lemma {:induction false} InWindowRun(c: Config, prefix: string, store: Store, identifier: string, times: seq<int>, k: int)
    requires Key(prefix, identifier) in store && store[Key(prefix, identifier)].count == k
    requires forall i :: 0 <= i < |times| ==> times[i] <= store[Key(prefix, identifier)].resetTime
    ensures var (ds, s) := Run(c, prefix, store, identifier, times);
            && Key(prefix, identifier) in s
            && s[Key(prefix, identifier)] == Entry(k + |times|, store[Key(prefix, identifier)].resetTime)
            && forall i :: 0 <= i < |times| ==>
                 && (ds[i].allowed <==> k + i + 1 <= c.maxRequests)
                 && ds[i].remaining == (if ds[i].allowed then c.maxRequests - (k + i + 1) else 0)
                 && ds[i].resetTime == store[Key(prefix, identifier)].resetTime
    decreases |times|
  {
    if |times| > 0 {
      var key := Key(prefix, identifier);
      var first := Check(c, prefix, store, identifier, times[0]);
      InWindowRun(c, prefix, first.store, identifier, times[1..], k + 1);
      var (ds, s) := Run(c, prefix, store, identifier, times);
      forall i | 0 <= i < |times|
        ensures && (ds[i].allowed <==> k + i + 1 <= c.maxRequests)
                && ds[i].remaining == (if ds[i].allowed then c.maxRequests - (k + i + 1) else 0)
                && ds[i].resetTime == store[key].resetTime
      {
        if i > 0 {
          assert ds[i] == Run(c, prefix, first.store, identifier, times[1..]).0[i - 1];
        }
      }
    }
  }

  /** Quota ceiling and inclusive boundary: starting a fresh window, the k-th
      check (k = i + 1) within the window is admitted iff k <= maxRequests,
      with `remaining = maxRequests - k`; rejected checks still count. */
  lemma QuotaCeiling(c: Config, prefix: string, store: Store, identifier: string, times: seq<int>)
    requires c.maxRequests > 0
    requires |times| > 0 && OpensWindow(store, Key(prefix, identifier), times[0])
    requires forall i :: 0 <= i < |times| ==> times[i] <= times[0] + c.windowMs
    ensures var (ds, s) := Run(c, prefix, store, identifier, times);
            && Key(prefix, identifier) in s
            && s[Key(prefix, identifier)] == Entry(|times|, times[0] + c.windowMs)
            && forall i :: 0 <= i < |times| ==>
                 && (ds[i].allowed <==> i + 1 <= c.maxRequests)
                 && ds[i].remaining == (if ds[i].allowed then c.maxRequests - (i + 1) else 0)
                 && ds[i].resetTime == times[0] + c.windowMs
  {
    var first := Check(c, prefix, store, identifier, times[0]);
    InWindowRun(c, prefix, first.store, identifier, times[1..], 1);
    var (ds, s) := Run(c, prefix, store, identifier, times);
    forall i | 0 < i < |times|
      ensures ds[i] == Run(c, prefix, first.store, identifier, times[1..]).0[i - 1]
    {
    }
  }

  /** Within one window, each admitted check reports one less remaining
      request than the check before it. */
  lemma RemainingDecreasesByOne(c: Config, prefix: string, store: Store, identifier: string, times: seq<int>)
    requires c.maxRequests > 0
    requires |times| > 0 && OpensWindow(store, Key(prefix, identifier), times[0])
    requires forall i :: 0 <= i < |times| ==> times[i] <= times[0] + c.windowMs
    ensures var ds := Run(c, prefix, store, identifier, times).0;
            forall i :: 0 < i < |times| && ds[i].allowed ==>
              ds[i - 1].allowed && ds[i].remaining == ds[i - 1].remaining - 1
  {
    QuotaCeiling(c, prefix, store, identifier, times);
  }

  /** The concrete scenario of a 3-request policy, for any key not yet
      stored: remaining 2, 1, 0, then a rejection with the policy's message,
      and a fresh window 60001 ms later. */
  lemma ThreeRequestScenario(prefix: string, identifier: string, store: Store)
    requires Key(prefix, identifier) !in store
    ensures var c := Config(60000, 3, Some("slow down"));
            var (ds, s) := Run(c, prefix, store, identifier, [0, 10, 20, 30, 60031]);
            && ds[0] == Decision(true, 2, 60000, None)
            && ds[1] == Decision(true, 1, 60000, None)
            && ds[2] == Decision(true, 0, 60000, None)
            && ds[3] == Decision(false, 0, 60000, Some("slow down"))
            && ds[4] == Decision(true, 2, 120031, None)
  {
    var c := Config(60000, 3, Some("slow down"));
    var key := Key(prefix, identifier);
    var r0 := Check(c, prefix, store, identifier, 0);
    assert r0.store[key] == Entry(1, 60000);
    var r1 := Check(c, prefix, r0.store, identifier, 10);
    assert r1.store[key] == Entry(2, 60000);
    var r2 := Check(c, prefix, r1.store, identifier, 20);
    assert r2.store[key] == Entry(3, 60000);
    var r3 := Check(c, prefix, r2.store, identifier, 30);
    assert r3.store[key] == Entry(4, 60000);
    var r4 := Check(c, prefix, r3.store, identifier, 60031);
    RunStep(c, prefix, r3.store, identifier, [60031]);
    assert [60031][1..] == [];
    RunStep(c, prefix, r2.store, identifier, [30, 60031]);
    assert [30, 60031][1..] == [60031];
    RunStep(c, prefix, r1.store, identifier, [20, 30, 60031]);
    assert [20, 30, 60031][1..] == [30, 60031];
    RunStep(c, prefix, r0.store, identifier, [10, 20, 30, 60031]);
    assert [10, 20, 30, 60031][1..] == [20, 30, 60031];
    RunStep(c, prefix, store, identifier, [0, 10, 20, 30, 60031]);
    assert [0, 10, 20, 30, 60031][1..] == [10, 20, 30, 60031];
  }

  /** The first decision of a run is that of one check, and the rest of the
      run continues from the store that check leaves. */
  lemma RunStep(c: Config, prefix: string, store: Store, identifier: string, times: seq<int>)
    requires |times| > 0
    ensures var first := Check(c, prefix, store, identifier, times[0]);
            Run(c, prefix, store, identifier, times).0
              == [first.decision] + Run(c, prefix, first.store, identifier, times[1..]).0
  {
  }

  /** After `reset`, the next check behaves as the very first request, and the
      entries of every other key are as before. */
  lemma ResetThenCheckIsFresh(c: Config, prefix: string, store: Store, identifier: string, now: int)
    ensures var r := Check(c, prefix, Reset(prefix, store, identifier), identifier, now);
            && r.decision == Decision(true, c.maxRequests - 1, now + c.windowMs, None)
            && r.store == store[Key(prefix, identifier) := Entry(1, now + c.windowMs)]
  {
    var key := Key(prefix, identifier);
    var r := Check(c, prefix, Reset(prefix, store, identifier), identifier, now);
    assert r.store.Keys == store[key := Entry(1, now + c.windowMs)].Keys;
  }

  /** Resetting an identifier that has no entry changes nothing. */
  lemma ResetAbsentIsNoOp(prefix: string, store: Store, identifier: string)
    requires Key(prefix, identifier) !in store
    ensures Reset(prefix, store, identifier) == store
  {
    assert Reset(prefix, store, identifier).Keys == store.Keys;
  }

  /** Two identifiers under one prefix use different keys. */
  lemma {:induction false} KeysDistinctByIdentifier(prefix: string, id1: string, id2: string)
    requires id1 != id2
    ensures Key(prefix, id1) != Key(prefix, id2)
  {
    assert Key(prefix, id1)[|prefix| + 1..] == id1;
    assert Key(prefix, id2)[|prefix| + 1..] == id2;
  }

  /** One identifier under two prefixes uses different keys. */
  lemma {:induction false} KeysDistinctByPrefix(p1: string, p2: string, identifier: string)
    requires p1 != p2
    ensures Key(p1, identifier) != Key(p2, identifier)
  {
    assert Key(p1, identifier)[..|p1|] == p1;
    assert Key(p2, identifier)[..|p2|] == p2;
  }

  /** The length of the longest prefix of `s` without a `:`. */
  function UpToColon(s: string): (k: nat)
    ensures k <= |s| && ':' !in s[..k]
    ensures k < |s| ==> s[k] == ':'
  {
    if |s| == 0 || s[0] == ':' then 0 else 1 + UpToColon(s[1..])
  }

  lemma {:induction false} UpToColonOfKey(prefix: string, identifier: string)
    requires ':' !in prefix
    ensures UpToColon(Key(prefix, identifier)) == |prefix|
    decreases |prefix|
  {
    if |prefix| > 0 {
      assert Key(prefix, identifier)[1..] == Key(prefix[1..], identifier);
      UpToColonOfKey(prefix[1..], identifier);
    } else {
      assert Key(prefix, identifier)[0] == ':';
    }
  }

  /** With prefixes free of `:` (as "rl" and the route prefixes are), a key
      determines both its prefix and its identifier. */
  lemma KeysDistinctColonFreePrefix(p1: string, i1: string, p2: string, i2: string)
    requires ':' !in p1 && ':' !in p2
    ensures Key(p1, i1) == Key(p2, i2) <==> p1 == p2 && i1 == i2
  {
    if Key(p1, i1) == Key(p2, i2) {
      var k := Key(p1, i1);
      UpToColonOfKey(p1, i1);
      UpToColonOfKey(p2, i2);
      assert p1 == k[..|p1|] == p2;
      assert i1 == k[|p1| + 1..] == i2;
    }
  }

  /** Without that restriction two different pairs can share a counter. */
  lemma KeyCollision()
    ensures Key("rl", "signup:x") == Key("rl:signup", "x")
  {
  }

  /** Isolation: a check under one key does not change what a check under any
      other key decides. */
  lemma Isolation(c1: Config, p1: string, id1: string, t1: int,
                  c2: Config, p2: string, id2: string, t2: int, store: Store)
    requires Key(p1, id1) != Key(p2, id2)
    ensures Check(c2, p2, Check(c1, p1, store, id1, t1).store, id2, t2).decision
         == Check(c2, p2, store, id2, t2).decision
  {
    var s1 := Check(c1, p1, store, id1, t1).store;
    var k2 := Key(p2, id2);
    assert k2 in s1 <==> k2 in store;
  }

  /** Every stored window ends at most `windowMs` after `now`: it was opened no
      later than `now`. */
  predicate WindowsBounded(c: Config, store: Store, now: int) {
    forall k :: k in store ==> store[k].resetTime <= now + c.windowMs
  }

  /** With a clock that does not run backwards, checks keep every stored
      window within one window length of the present. */
  lemma CheckKeepsWindowsBounded(c: Config, prefix: string, store: Store, identifier: string, before: int, now: int)
    requires before <= now && WindowsBounded(c, store, before)
    ensures WindowsBounded(c, Check(c, prefix, store, identifier, now).store, now)
  {
  }

  /** A status snapshot taken right after a check agrees with its decision. */
  lemma StatusAfterCheck(c: Config, prefix: string, store: Store, identifier: string, now: int)
    ensures var r := Check(c, prefix, store, identifier, now);
            var st := GetStatus(c, prefix, r.store, identifier);
            && st.Some?
            && st.value.resetTime == r.decision.resetTime
            && st.value.remaining == (if r.decision.remaining > 0 then r.decision.remaining else 0)
            && (r.decision.allowed <==> st.value.count <= c.maxRequests || OpensWindow(store, Key(prefix, identifier), now))
  {
  }

  // ---------------------------------------------------------------------------
  // Client identification and response headers
  // ---------------------------------------------------------------------------

  /** The characters JavaScript's `String.prototype.trim` removes: white space
      and line terminators. */
  predicate IsWhiteSpace(ch: char) {
    || ch == '\t' || ch == '\n' || ch == '\U{000B}' || ch == '\U{000C}' || ch == '\r'
    || ch == ' ' || ch == '\U{00A0}' || ch == '\U{1680}'
    || ('\U{2000}' <= ch <= '\U{200A}')
    || ch == '\U{2028}' || ch == '\U{2029}' || ch == '\U{202F}' || ch == '\U{205F}'
    || ch == '\U{3000}' || ch == '\U{FEFF}'
  }

  /** Every character of `s` is white space (so `s.trim()` is empty). */
  predicate Blank(s: string) {
    forall i :: 0 <= i < |s| ==> IsWhiteSpace(s[i])
  }

  /** `s.split(',')[0]`: the text before the first comma, or all of `s`. */
  function FirstField(s: string): (f: string)
    ensures |f| <= |s| && f == s[..|f|]
    ensures forall i :: 0 <= i < |f| ==> f[i] != ','
    ensures |f| < |s| ==> s[|f|] == ','
  {
    if |s| == 0 || s[0] == ',' then "" else [s[0]] + FirstField(s[1..])
  }

  /** Number of white-space characters at the front of `s`. */
  function LeadingSpace(s: string): (k: nat)
    ensures k <= |s|
    ensures forall i :: 0 <= i < k ==> IsWhiteSpace(s[i])
    ensures k < |s| ==> !IsWhiteSpace(s[k])
  {
    if |s| > 0 && IsWhiteSpace(s[0]) then 1 + LeadingSpace(s[1..]) else 0
  }

  /** Number of white-space characters at the end of `s`. */
  function TrailingSpace(s: string): (k: nat)
    ensures k <= |s|
    ensures forall i :: |s| - k <= i < |s| ==> IsWhiteSpace(s[i])
    ensures k < |s| ==> !IsWhiteSpace(s[|s| - k - 1])
  {
    if |s| > 0 && IsWhiteSpace(s[|s| - 1]) then 1 + TrailingSpace(s[..|s| - 1]) else 0
  }

  /** `s.trim()`: `s` is white space, then the result, then white space, and
      the result neither starts nor ends with white space. */
  function Trim(s: string): (r: string)
    ensures LeadingSpace(s) + |r| <= |s|
    ensures r == s[LeadingSpace(s)..LeadingSpace(s) + |r|]
    ensures forall i :: LeadingSpace(s) + |r| <= i < |s| ==> IsWhiteSpace(s[i])
    ensures |r| > 0 ==> !IsWhiteSpace(r[0]) && !IsWhiteSpace(r[|r| - 1])
  {
    var rest := s[LeadingSpace(s)..];
    rest[..|rest| - TrailingSpace(rest)]
  }

  /** The request headers the identifier is read from (`null` when absent). */
  datatype Request = Request(forwardedFor: Option<string>, realIp: Option<string>)

  /** JavaScript truthiness of an optional string: present and non-empty. */
  predicate Truthy(o: Option<string>) {
    o.Some? && o.value != ""
  }

  /** `getClientIdentifier`: the user id if given, else the first address of
      `x-forwarded-for`, else `x-real-ip`, else the literal "unknown". Header
      values are used as sent, so a client can claim any identifier,
      including the "user:" form of a signed-in user
      (ForwardedForSharesUserCounter). */
  function ClientIdentifier(request: Request, userId: Option<string>): (id: string)
    ensures Truthy(userId) ==> id == "user:" + userId.value
    ensures !Truthy(userId) && Truthy(request.forwardedFor) ==>
              && ',' !in id
              && id == Trim(FirstField(request.forwardedFor.value))
    ensures !Truthy(userId) && !Truthy(request.forwardedFor) && Truthy(request.realIp) ==>
              id == request.realIp.value
    ensures !Truthy(userId) && !Truthy(request.forwardedFor) && !Truthy(request.realIp) ==>
              id == "unknown"
  {
    if Truthy(userId) then "user:" + userId.value
    else if Truthy(request.forwardedFor) then Trim(FirstField(request.forwardedFor.value))
    else if Truthy(request.realIp) then request.realIp.value
    else "unknown"
  }

  /** The identifier is empty exactly when the first element of a present
      `x-forwarded-for` header is blank (for instance ", 10.0.0.1"); all such
      clients then share one entry. */
  lemma EmptyIdentifier(request: Request, userId: Option<string>)
    ensures ClientIdentifier(request, userId) == "" <==>
              !Truthy(userId) && Truthy(request.forwardedFor) && Blank(FirstField(request.forwardedFor.value))
  {
    var id := ClientIdentifier(request, userId);
    if Truthy(userId) {
      assert |id| == 5 + |userId.value|;
    } else if Truthy(request.forwardedFor) {
      var f := FirstField(request.forwardedFor.value);
      assert id == Trim(f);
      TrimEmpty(f);
    } else if Truthy(request.realIp) {
      assert id == request.realIp.value;
    } else {
      assert |id| == 7;
    }
  }

  /** An anonymous request whose `x-forwarded-for` is `user:` followed by a
      signed-in user's id (one with no comma and not ending in white space)
      gets that user's identifier, and with it that user's counter. */
  lemma ForwardedForSharesUserCounter(userId: string, realIp: Option<string>)
    requires userId != "" && ',' !in userId && !IsWhiteSpace(userId[|userId| - 1])
    ensures ClientIdentifier(Request(Some("user:" + userId), realIp), None)
         == ClientIdentifier(Request(None, None), Some(userId))
  {
    var header := "user:" + userId;
    assert header[0] == 'u' && header[|header| - 1] == userId[|userId| - 1];
    forall i | 0 <= i < |header|
      ensures header[i] != ','
    {
      if i >= 5 {
        assert header[i] == userId[i - 5];
      }
    }
    ForwardedForVerbatim(header, realIp);
  }

  /** A comma-free header that neither starts nor ends with white space is
      the identifier of an anonymous request carrying it. */
  lemma ForwardedForVerbatim(header: string, realIp: Option<string>)
    requires |header| > 0 && !IsWhiteSpace(header[0]) && !IsWhiteSpace(header[|header| - 1])
    requires forall i :: 0 <= i < |header| ==> header[i] != ','
    ensures ClientIdentifier(Request(Some(header), realIp), None) == header
  {
    FirstFieldCommaFree(header);
    TrimTight(header);
  }

  /** A header without a comma is its own first field. */
  lemma FirstFieldCommaFree(s: string)
    requires forall i :: 0 <= i < |s| ==> s[i] != ','
    ensures FirstField(s) == s
  {
  }

  /** A string that neither starts nor ends with white space is its own trim. */
  lemma TrimTight(s: string)
    requires |s| > 0 && !IsWhiteSpace(s[0]) && !IsWhiteSpace(s[|s| - 1])
    ensures Trim(s) == s
  {
    assert LeadingSpace(s) == 0;
    assert s[LeadingSpace(s)..] == s;
    assert TrailingSpace(s) == 0;
  }

  /** Trimming leaves nothing exactly when every character is white space. */
  lemma TrimEmpty(s: string)
    ensures Trim(s) == "" <==> Blank(s)
  {
    if Blank(s) {
      assert LeadingSpace(s) == |s|;
    }
    if Trim(s) == "" {
      assert LeadingSpace(s) == |s|;
    }
  }

  /** `Math.ceil((resetTime - now) / 1000)`: whole seconds until the window ends,
      rounded up. */
  function RetryAfterSeconds(resetTime: int, now: int): (n: int)
    ensures (n - 1) * 1000 < resetTime - now <= n * 1000
  {
    (resetTime - now + 999) / 1000
  }

  /** The `X-RateLimit-*` and `Retry-After` headers. The ISO-8601 rendering of
      `X-RateLimit-Reset` is kept as the timestamp it renders. */
  datatype Headers = Headers(remaining: string, reset: int, retryAfter: string)

  /** `createRateLimitHeaders`, with the second clock reading as `now`. */
  function CreateHeaders(d: Decision, now: int): (h: Headers)
    ensures Decimal.ParseInt(h.remaining) == Some(d.remaining)
    ensures h.reset == d.resetTime
    ensures Decimal.ParseInt(h.retryAfter) == Some(RetryAfterSeconds(d.resetTime, now))
  {
    Decimal.IntRoundTrip(d.remaining);
    Decimal.IntRoundTrip(RetryAfterSeconds(d.resetTime, now));
    Headers(Decimal.IntToDecimal(d.remaining), d.resetTime,
            Decimal.IntToDecimal(RetryAfterSeconds(d.resetTime, now)))
  }

  /** The delay-seconds form of `Retry-After` (section 10.2.3 of RFC 9110):
      one or more decimal digits. */
  predicate DelaySeconds(s: string) {
    |s| >= 1 && Decimal.AllDigits(s)
  }

  /** `Retry-After` is a valid delay-seconds value exactly when the window
      ended less than a second before the headers were built. */
  lemma RetryAfterWellFormed(d: Decision, now: int)
    ensures DelaySeconds(CreateHeaders(d, now).retryAfter) <==> d.resetTime - now > -1000
  {
    Decimal.IntToDecimalAllDigits(RetryAfterSeconds(d.resetTime, now));
  }

  /** Headers built at the instant of the check under a valid policy carry a
      well-formed `Retry-After` of at most ceil(windowMs / 1000) seconds and a
      non-negative remaining count. */
  lemma HeadersAtCheckTime(c: Config, prefix: string, store: Store, identifier: string, now: int)
    requires ValidConfig(c) && WindowsBounded(c, store, now)
    ensures var d := Check(c, prefix, store, identifier, now).decision;
            var h := CreateHeaders(d, now);
            && DelaySeconds(h.retryAfter)
            && DelaySeconds(h.remaining)
            && RetryAfterSeconds(d.resetTime, now) <= RetryAfterSeconds(now + c.windowMs, now)
  {
    var d := Check(c, prefix, store, identifier, now).decision;
    RetryAfterWellFormed(d, now);
    Decimal.IntToDecimalAllDigits(d.remaining);
  }

  /** What `applyRateLimit` hands back to a route handler. */
  datatype Applied = Applied(success: bool, headers: Headers, error: Option<string>)

  /** `applyRateLimit`: identify the client, check it under the policy, and
      build the headers. `checkedAt` and `headersAt` are the two clock readings. */
  function ApplyRateLimit(c: Config, prefix: string, store: Store, request: Request, userId: Option<string>,
                          checkedAt: int, headersAt: int): (r: (Applied, Store))
    ensures var id := ClientIdentifier(request, userId);
            var checked := Check(c, prefix, store, id, checkedAt);
            && r.1 == checked.store
            && (r.0.success <==> checked.decision.allowed)
            && (r.0.success ==> r.0.error.None?)
            && (!r.0.success ==> r.0.error == Some(RejectionMessage(c)))
            && r.0.headers == CreateHeaders(checked.decision, headersAt)
            && Decimal.ParseInt(r.0.headers.remaining) == Some(checked.decision.remaining)
            && r.0.headers.reset == checked.decision.resetTime
            && Decimal.ParseInt(r.0.headers.retryAfter) == Some(RetryAfterSeconds(checked.decision.resetTime, headersAt))
  {
    var checked := Check(c, prefix, store, ClientIdentifier(request, userId), checkedAt);
    var headers := CreateHeaders(checked.decision, headersAt);
    if !checked.decision.allowed then
      (Applied(false, headers, Some(checked.decision.message.GetOr(DefaultMessage))), checked.store)
    else
      (Applied(true, headers, None), checked.store)
  }
}
