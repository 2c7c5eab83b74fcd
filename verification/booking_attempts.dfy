/** Booking attempts: the idempotency key of each attempt, the tracker that refuses a
    repeated key, and the sign-and-retry path that posts it. */
module BookingAttempts {
  import opened RequestHeaders
  import opened Text

  // ---- domain.IdempotencyKey

  datatype SlotPayload =
    | NilPayload
    | ResyPayload(configId: string, templateId: string, seatingType: string)
    | UnknownPayload(typeName: string)

  function PayloadText(p: SlotPayload): string {
    match p
    case NilPayload => "slot=<nil>\n"
    case ResyPayload(c, t, s) => "slot=resy config=" + c + " template=" + t + " seating=" + s + "\n"
    case UnknownPayload(n) => "slot=unknown(" + n + ")\n"
  }

  /** What IdempotencyKey digests. */
  function KeyText(intentHash: string, p: SlotPayload, attempt: int): string {
    "intent=" + intentHash + "\n" + PayloadText(p) + AttemptLine(attempt) + "\n"
  }

  function AttemptLine(attempt: int): string { "attempt=" + DecimalInt(attempt) }

  function LastLine(s: string): string {
    if s == "" || s[|s| - 1] == '\n' then "" else LastLine(s[..|s| - 1]) + [s[|s| - 1]]
  }

  lemma {:induction false} LastLineOf(a: string, b: string)
    requires a != "" && a[|a| - 1] == '\n' && '\n' !in b
    ensures LastLine(a + b) == b
  {
    if b == "" {
      assert a + b == a;
    } else {
      var c := b[..|b| - 1];
      assert (a + b)[..|a + b| - 1] == a + c && b == c + [b[|b| - 1]];
      LastLineOf(a, c);
    }
  }

  lemma DigitsHoldNoNewline(n: int)
    ensures '\n' !in AttemptLine(n)
  {
    assert forall c | c in Decimal(Abs(n)) :: IsDigit(c);
  }

  lemma LastLineIsAttempt(h: string, p: SlotPayload, i: int)
    ensures var k := KeyText(h, p, i); k != "" && LastLine(k[..|k| - 1]) == AttemptLine(i)
  {
    var a, k := "intent=" + h + "\n" + PayloadText(p), KeyText(h, p, i);
    assert k[..|k| - 1] == a + AttemptLine(i);
    DigitsHoldNoNewline(i);
    LastLineOf(a, AttemptLine(i));
  }

  lemma AttemptLineUnique(i: int, j: int)
    requires AttemptLine(i) == AttemptLine(j)
    ensures i == j
  {
    assert AttemptLine(i)[8..] == DecimalInt(i) && AttemptLine(j)[8..] == DecimalInt(j);
    assert DecimalInt(i) + "" == DecimalInt(i) && DecimalInt(j) + "" == DecimalInt(j);
    DecimalUnique(i, "", j, "");
  }

  /** Two attempts of one race never share a key text, whatever their slots carry:
      newlines and key words inside a payload cannot imitate the attempt number. */
  lemma KeyTextFixesAttempt(h: string, p: SlotPayload, i: int, q: SlotPayload, j: int)
    requires KeyText(h, p, i) == KeyText(h, q, j)
    ensures i == j
  {
    hide *;
    LastLineIsAttempt(h, p, i);
    LastLineIsAttempt(h, q, j);
    AttemptLineUnique(i, j);
  }

  /** Two key texts, of hashes without a line end, are the same exactly when intent, payload text
      and attempt are: the tracker takes no snipe's booking for a repetition of another's. */
  lemma KeyTextExactly(h: string, p: SlotPayload, i: int, k: string, q: SlotPayload, j: int)
    requires '\n' !in h && '\n' !in k
    ensures KeyText(h, p, i) == KeyText(k, q, j) <==> h == k && PayloadText(p) == PayloadText(q) && i == j
  {
    if KeyText(h, p, i) == KeyText(k, q, j) {
      var a, b := PayloadText(p) + (AttemptLine(i) + "\n"), PayloadText(q) + (AttemptLine(j) + "\n");
      KeyTextParts(h, p, i);
      KeyTextParts(k, q, j);
      assert h + ("\n" + a) == ("intent=" + (h + ("\n" + a)))[7..];
      assert k + ("\n" + b) == ("intent=" + (k + ("\n" + b)))[7..];
      SplitAtFirst(h, a, k, b, '\n');
      LastLineIsAttempt(h, p, i);
      LastLineIsAttempt(k, q, j);
      AttemptLineUnique(i, j);
      assert PayloadText(p) == a[..|a| - |AttemptLine(i) + "\n"|];
      assert PayloadText(q) == b[..|b| - |AttemptLine(j) + "\n"|];
    }
  }

  lemma KeyTextParts(h: string, p: SlotPayload, i: int)
    ensures KeyText(h, p, i) == "intent=" + (h + ("\n" + (PayloadText(p) + (AttemptLine(i) + "\n"))))
  {
  }

  /** The key texts of one race: slot k is attempt k + 1. */
  function RaceKeys(h: string, slots: seq<SlotPayload>): (keys: seq<string>)
    ensures |keys| == |slots|
  {
    seq(|slots|, k requires 0 <= k < |slots| => KeyText(h, slots[k], k + 1))
  }

  lemma RaceKeysDistinct(h: string, slots: seq<SlotPayload>)
    ensures forall i, j | 0 <= i < j < |slots| :: RaceKeys(h, slots)[i] != RaceKeys(h, slots)[j]
  {
    forall i, j | 0 <= i < j < |slots| ensures RaceKeys(h, slots)[i] != RaceKeys(h, slots)[j] {
      if RaceKeys(h, slots)[i] == RaceKeys(h, slots)[j] {
        KeyTextFixesAttempt(h, slots[i], i + 1, slots[j], j + 1);
      }
    }
  }

  // ---- the client

  datatype Reply = TransportError | NoResponse | AntiBot | Answered

  /** signRetryFloor. */
  const FLOOR: nat := 100_000_000

  /** One POST: the standard headers, the merged ones, the order in which they were set over the
      standard ones and the header that gave; when it was sent, when its reply came, and the reply. */
  datatype Post = Post(
    standard: Headers, headers: Headers, order: seq<string>, wire: Headers, at: int, back: int, reply: Reply)

  datatype Booked = Refused | Posted(reply: Reply)

  class Client {
    var seen: set<string>
    /** The reading of the client's clock. */
    var now: int
    const noopSigner: bool
    /** Every POST so far, and the non-empty keys the tracker let through. */
    ghost var posts: seq<Post>
    /** How many waits the context has cut short. */
    ghost var cuts: nat
    ghost var admitted: seq<string>

    constructor (noopSigner: bool, now: int)
      ensures Valid() && this.noopSigner == noopSigner && this.now == now && posts == []
    {
      this.noopSigner, this.now := noopSigner, now;
      seen, posts, cuts, admitted := {}, [], 0, [];
    }

    /** Keys are admitted once, and each admitted key has at most two POSTs. */
    ghost predicate Valid()
      reads this
    {
      && (forall k :: k in seen <==> k in admitted)
      && (forall i, j | 0 <= i < j < |admitted| :: admitted[i] != admitted[j])
      && (forall k | k != "" :: CountKey(posts, k) <= (if k in seen then 2 else 0))
    }

    method Check(key: string) returns (ok: bool)
      requires Valid()
      modifies this`seen, this`admitted
      ensures ok <==> key == "" || key !in old(seen)
      ensures seen == if key == "" then old(seen) else old(seen) + {key}
      ensures admitted == if ok && key != "" then old(admitted) + [key] else old(admitted)
      ensures Valid()
    {
      if key == "" { return true; }
      if key in seen { return false; }
      seen := seen + {key};
      admitted := admitted + [key];
      ok := true;
    }

    /** ConfirmSlot once its slot carries a token: check the key, then post it. */
    method Confirm(key: string) returns (r: Booked)
      requires Valid()
      modifies this
      ensures Valid()
      ensures r == Refused <==> key != "" && key in old(seen)
      ensures r == Refused ==> posts == old(posts)
      ensures r != Refused ==> Sent(old(posts), posts, map[KEY_HEADER := key], noopSigner)
      ensures r != Refused ==> posts[|posts| - 1].reply == r.reply
      ensures key != "" ==> key in seen
      ensures r != Refused && cuts == old(cuts) ==>
              (|posts| == |old(posts)| + 2 <==> posts[|old(posts)|].reply == AntiBot && !noopSigner)
    {
      hide CountKey;
      var ok := Check(key);
      if !ok { return Refused; }
      ghost var before := posts;
      var reply := DoSignedAndRetry(map[KEY_HEADER := key]);
      forall k | k != "" ensures CountKey(posts, k) <= (if k in seen then 2 else 0) {
        SentCounts(before, posts, key, noopSigner, k);
      }
      r := Posted(reply);
    }

    /** One signed POST; a retry only after an anti-bot reply, with a real signer and a
        completed wait. The caller's headers win over the signer's of the same spelling. */
    method DoSignedAndRetry(extra: Headers) returns (reply: Reply)
      modifies this`posts, this`now, this`cuts
      ensures Sent(old(posts), posts, extra, noopSigner) && posts[|posts| - 1].reply == reply
      ensures cuts == old(cuts) ==>
              (|posts| == |old(posts)| + 2 <==> posts[|old(posts)|].reply == AntiBot && !noopSigner)
      ensures cuts >= old(cuts)
    {
      reply := AttemptSigned(extra);
      if reply != AntiBot || noopSigner { return; }
      var waited := WaitFloor(FLOOR);
      if !waited { return; }
      reply := AttemptSigned(extra);
    }

    /** Sign, merge, and make the round trip; a signer error only costs its headers. */
    method AttemptSigned(extra: Headers) returns (reply: Reply)
      modifies this`posts, this`now
      ensures |posts| == |old(posts)| + 1 && posts[..|old(posts)|] == old(posts)
      ensures Carries(posts[|old(posts)|], extra) && posts[|old(posts)|].reply == reply
      ensures old(now) <= posts[|old(posts)|].at <= posts[|old(posts)|].back == now
    {
      var standard: Headers, signed: Headers := *, *;
      var merged := MergeHeaders(extra, signed);
      Elapse();
      var wire, order := SetHeaders(standard, merged);
      ghost var at := now;
      Elapse();
      reply := *;
      posts := posts + [Post(standard, merged, order, wire, at, now, reply)];
    }

    /** Blocks until d has passed on the clock, unless the context is cancelled first. */
    method WaitFloor(d: nat) returns (waited: bool)
      modifies this`now, this`cuts
      ensures now >= old(now) && (waited ==> now >= old(now) + d)
      ensures cuts == old(cuts) + if waited then 0 else 1
    {
      var due := now + d;
      Elapse();
      waited := now >= due;
      if !waited { cuts := cuts + 1; }
    }

    method Elapse()
      modifies this`now
      ensures now >= old(now)
    {
      var t: int := *;
      if t > 0 {
        now := now + t;
      }
    }
  }

  /** The headers merged for this POST hold the caller's, and they were sent as one walk over
      them leaves them. */
  ghost predicate Carries(p: Post, extra: Headers) {
    && (forall h | h in extra :: h in p.headers && p.headers[h] == extra[h])
    && IsOrder(p.order, p.headers) && p.wire == SetAll(p.standard, p.headers, p.order)
  }

  /** One POST was added, or two: the first turned away as a bot, with a real signer, and the
      second not before the retry floor had passed since that reply. */
  ghost predicate Sent(before: seq<Post>, after: seq<Post>, extra: Headers, noopSigner: bool) {
    && before <= after && 1 <= |after| - |before| <= 2
    && (forall i | |before| <= i < |after| :: Carries(after[i], extra))
    && after[|before|].at <= after[|before|].back
    && (|after| - |before| == 2 ==>
          after[|before|].reply == AntiBot && !noopSigner && after[|before| + 1].at >= after[|before|].back + FLOOR)
  }

  ghost function CountKey(posts: seq<Post>, key: string): nat {
    if posts == [] then 0
    else
      var p := posts[|posts| - 1];
      CountKey(posts[..|posts| - 1], key)
      + if KEY_HEADER in p.headers && p.headers[KEY_HEADER] == key then 1 else 0
  }

  lemma {:induction false} CountCarried(posts: seq<Post>, key: string, k: string)
    requires forall i | 0 <= i < |posts| :: Carries(posts[i], map[KEY_HEADER := key])
    ensures CountKey(posts, k) == if k == key then |posts| else 0
  {
    if posts != [] {
      CountCarried(posts[..|posts| - 1], key, k);
      assert Carries(posts[|posts| - 1], map[KEY_HEADER := key]);
    }
  }

  lemma SentCounts(before: seq<Post>, after: seq<Post>, key: string, noopSigner: bool, k: string)
    requires Sent(before, after, map[KEY_HEADER := key], noopSigner)
    ensures CountKey(before, k) <= CountKey(after, k) <= CountKey(before, k) + if k == key then 2 else 0
  {
    var added := after[|before|..];
    assert after == before + added;
    assert forall i | 0 <= i < |added| :: added[i] == after[|before| + i];
    CountAppend(before, added, k);
    CountCarried(added, key, k);
  }

  lemma {:induction false} CountAppend(a: seq<Post>, b: seq<Post>, key: string)
    ensures CountKey(a + b, key) == CountKey(a, key) + CountKey(b, key)
  {
    if b == [] {
      assert a + b == a;
    } else {
      assert (a + b)[..|a + b| - 1] == a + b[..|b| - 1];
      CountAppend(a, b[..|b| - 1], key);
    }
  }
}
