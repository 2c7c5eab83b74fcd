/** What one request carries: the caller's headers over the signer's, set one by one under
    their canonical names in whatever order a Go map is walked. */
module RequestHeaders {

  const KEY_HEADER := "X-Resy-Idempotency-Key"

  type Headers = map<string, string>

  function MergeHeaders(base: Headers, overlay: Headers): (merged: Headers)
    ensures merged.Keys == base.Keys + overlay.Keys
    ensures forall k | k in base :: merged[k] == base[k]
    ensures forall k | k in overlay && k !in base :: merged[k] == overlay[k]
  {
    if |overlay| == 0 then base else overlay + base
  }

  // ---- http.CanonicalHeaderKey

  predicate IsTokenChar(c: char) {
    'a' <= c <= 'z' || 'A' <= c <= 'Z' || '0' <= c <= '9' || c in "!#$%&'*+-.^_`|~"
  }

  function Upper(c: char): char { if 'a' <= c <= 'z' then (c as int - 32) as char else c }

  function Lower(c: char): char { if 'A' <= c <= 'Z' then (c as int + 32) as char else c }

  /** Letters that start a word are upper case and the others lower case, unless the name is
      no header name. */
  function Canonical(name: string): (c: string)
    ensures |c| == |name|
  {
    if exists i :: 0 <= i < |name| && !IsTokenChar(name[i]) then name
    else seq(|name|, i requires 0 <= i < |name| => Cased(name, i))
  }

  function Cased(name: string, i: nat): char
    requires i < |name|
  {
    if i == 0 || name[i - 1] == '-' then Upper(name[i]) else Lower(name[i])
  }

  // ---- req.Header.Set over the merged map

  /** The map's names, each once. */
  ghost predicate IsOrder(order: seq<string>, m: Headers) {
    && (forall i | 0 <= i < |order| :: order[i] in m)
    && (forall k | k in m :: k in order)
    && forall i, j | 0 <= i < j < |order| :: order[i] != order[j]
  }

  /** The header after the loop over m has visited these names: empty values are skipped. */
  function SetAll(standard: Headers, m: Headers, order: seq<string>): Headers
    requires forall i | 0 <= i < |order| :: order[i] in m
  {
    if order == [] then standard
    else
      var k, w := order[|order| - 1], SetAll(standard, m, order[..|order| - 1]);
      if m[k] == "" then w else w[Canonical(k) := m[k]]
  }

  /** order has each name of m outside left once, and no other. */
  ghost predicate Visited(order: seq<string>, m: Headers, left: set<string>) {
    && (forall i | 0 <= i < |order| :: order[i] in m && order[i] !in left)
    && (forall k | k in m && k !in left :: k in order)
    && forall i, j | 0 <= i < j < |order| :: order[i] != order[j]
  }

  lemma VisitedStep(order: seq<string>, m: Headers, left: set<string>, k: string)
    requires Visited(order, m, left) && k in left && k in m
    ensures Visited(order + [k], m, left - {k})
  {
    assert forall o | o in order :: o in order + [k];
  }

  lemma VisitedEnds(order: seq<string>, m: Headers, left: set<string>)
    requires Visited(order, m, left)
    ensures forall i | 0 <= i < |order| :: order[i] in m
    ensures left == {} ==> IsOrder(order, m)
  {
  }

  lemma SetOneMore(standard: Headers, m: Headers, order: seq<string>, k: string)
    requires (forall i | 0 <= i < |order| :: order[i] in m) && k in m
    ensures forall i | 0 <= i < |order + [k]| :: (order + [k])[i] in m
    ensures SetAll(standard, m, order + [k]) ==
            var w := SetAll(standard, m, order); if m[k] == "" then w else w[Canonical(k) := m[k]]
  {
    assert (order + [k])[..|order|] == order;
  }

  method SetHeaders(standard: Headers, m: Headers) returns (header: Headers, ghost order: seq<string>)
    ensures IsOrder(order, m) && header == SetAll(standard, m, order)
  {
    header, order := standard, [];
    var left := m.Keys;
    assert Visited(order, m, left);
    hide Visited, SetAll, Canonical, IsOrder;
    VisitedEnds(order, m, left);
    NothingSet(standard, m);
    while left != {}
      invariant left <= m.Keys && Visited(order, m, left)
      invariant forall i | 0 <= i < |order| :: order[i] in m
      invariant header == SetAll(standard, m, order)
      decreases |left|
    {
      var k :| k in left;
      if m[k] != "" {
        header := header[Canonical(k) := m[k]];
      }
      SetOneMore(standard, m, order, k);
      VisitedStep(order, m, left, k);
      order, left := order + [k], left - {k};
    }
    VisitedEnds(order, m, left);
  }

  lemma NothingSet(standard: Headers, m: Headers)
    ensures SetAll(standard, m, []) == standard
  {
  }

  /** A name of the map that sets the canonical name c. */
  predicate Sets(m: Headers, k: string, c: string) { k in m && m[k] != "" && Canonical(k) == c }

  /** Every value set under c is v. */
  ghost predicate Agreed(m: Headers, c: string, v: string) { forall k :: Sets(m, k, c) ==> m[k] == v }

  lemma {:induction false} AgreedValue(standard: Headers, m: Headers, order: seq<string>, k: string, v: string)
    requires forall i | 0 <= i < |order| :: order[i] in m
    requires k in order && Sets(m, k, Canonical(k)) && Agreed(m, Canonical(k), v)
    ensures Canonical(k) in SetAll(standard, m, order) && SetAll(standard, m, order)[Canonical(k)] == v
  {
    hide Canonical;
    var last, rest := order[|order| - 1], order[..|order| - 1];
    if Canonical(last) == Canonical(k) && m[last] != "" {
      assert Sets(m, last, Canonical(k));
    } else {
      assert k in rest by {
        var i :| 0 <= i < |order| && order[i] == k;
        assert rest[i] == k;
      }
      AgreedValue(standard, m, rest, k, v);
    }
  }

  lemma {:induction false} SomeOrder(m: Headers) returns (order: seq<string>)
    ensures IsOrder(order, m)
    decreases |m|
  {
    if m == map[] {
      order := [];
    } else {
      var k :| k in m;
      var rest := SomeOrder(m - {k});
      order := rest + [k];
    }
  }

  /** The walk that visits k last. */
  lemma LastOrder(standard: Headers, m: Headers, k: string) returns (order: seq<string>)
    requires Sets(m, k, Canonical(k))
    ensures IsOrder(order, m)
    ensures Canonical(k) in SetAll(standard, m, order) && SetAll(standard, m, order)[Canonical(k)] == m[k]
  {
    var before := SomeOrder(m - {k});
    order := before + [k];
    assert order[..|before|] == before;
    assert forall i | 0 <= i < |before| :: before[i] in m - {k};
  }

  /** The request shows this value for the name, whatever the walk. */
  ghost predicate AlwaysCarries(standard: Headers, m: Headers, c: string, v: string) {
    forall order :: IsOrder(order, m) ==> c in SetAll(standard, m, order) && SetAll(standard, m, order)[c] == v
  }

  /** A header of the merged map reaches the wire in every walk exactly when whatever else has
      its canonical name has its value. */
  lemma CarriedExactly(standard: Headers, m: Headers, h: string)
    requires Sets(m, h, Canonical(h))
    ensures AlwaysCarries(standard, m, Canonical(h), m[h]) <==> Agreed(m, Canonical(h), m[h])
  {
    if Agreed(m, Canonical(h), m[h]) {
      forall order | IsOrder(order, m)
        ensures Canonical(h) in SetAll(standard, m, order) && SetAll(standard, m, order)[Canonical(h)] == m[h]
      {
        AgreedValue(standard, m, order, h, m[h]);
      }
    } else {
      var k :| Sets(m, k, Canonical(h)) && m[k] != m[h];
      var order := LastOrder(standard, m, k);
    }
  }

  /** The book path's own header beside the signer's: "the caller wins on a key collision" is
      true of the request exactly when no other spelling of the name comes from the signer with
      another value. */
  lemma KeyCarriedExactly(standard: Headers, key: string, signed: Headers)
    requires key != ""
    ensures AlwaysCarries(standard, MergeHeaders(map[KEY_HEADER := key], signed), KEY_HEADER, key)
       <==> forall k | k in signed && k != KEY_HEADER && Canonical(k) == KEY_HEADER ::
              signed[k] == "" || signed[k] == key
  {
    hide Canonical, AlwaysCarries, Agreed;
    var m := MergeHeaders(map[KEY_HEADER := key], signed);
    KeyHeaderIsCanonical();
    assert Sets(m, KEY_HEADER, Canonical(KEY_HEADER));
    CarriedExactly(standard, m, KEY_HEADER);
    SignerAgrees(key, signed);
  }

  lemma SignerAgrees(key: string, signed: Headers)
    requires key != ""
    ensures Agreed(MergeHeaders(map[KEY_HEADER := key], signed), KEY_HEADER, key)
       <==> forall k | k in signed && k != KEY_HEADER && Canonical(k) == KEY_HEADER ::
              signed[k] == "" || signed[k] == key
  {
    hide Canonical;
    var m := MergeHeaders(map[KEY_HEADER := key], signed);
    assert forall k | k in signed && k != KEY_HEADER :: m[k] == signed[k];
    if Agreed(m, KEY_HEADER, key) {
      forall k | k in signed && k != KEY_HEADER && Canonical(k) == KEY_HEADER
        ensures signed[k] == "" || signed[k] == key
      {
        assert Sets(m, k, KEY_HEADER) || signed[k] == "";
      }
    }
  }

  lemma KeyHeaderIsName()
    ensures forall i | 0 <= i < |KEY_HEADER| :: IsTokenChar(KEY_HEADER[i])
  {
  }

  lemma KeyHeaderIsCanonical()
    ensures Canonical(KEY_HEADER) == KEY_HEADER
  {
    KeyHeaderIsName();
    hide IsTokenChar;
    var c := Canonical(KEY_HEADER);
    assert forall i | 0 <= i < |KEY_HEADER| :: c[i] == KEY_HEADER[i];
  }

  const LOWER_KEY_HEADER := "x-resy-idempotency-key"

  lemma LowerKeyHeaderIsName()
    ensures forall i | 0 <= i < |LOWER_KEY_HEADER| :: IsTokenChar(LOWER_KEY_HEADER[i])
  {
  }

  lemma LowerKeyHeader()
    ensures Canonical(LOWER_KEY_HEADER) == KEY_HEADER
  {
    LowerKeyHeaderIsName();
    hide IsTokenChar;
    var c := Canonical(LOWER_KEY_HEADER);
    assert forall i | 0 <= i < |KEY_HEADER| :: c[i] == KEY_HEADER[i];
  }

  /** A signer that spells the name in lower case replaces the idempotency key in some walk. */
  lemma SpellingReplacesKey(standard: Headers, key: string, other: string) returns (order: seq<string>)
    requires other != ""
    ensures var m := MergeHeaders(map[KEY_HEADER := key], map[LOWER_KEY_HEADER := other]);
            && IsOrder(order, m)
            && KEY_HEADER in SetAll(standard, m, order) && SetAll(standard, m, order)[KEY_HEADER] == other
  {
    LowerKeyHeader();
    assert LOWER_KEY_HEADER[0] != KEY_HEADER[0];
    var m := MergeHeaders(map[KEY_HEADER := key], map[LOWER_KEY_HEADER := other]);
    order := LastOrder(standard, m, LOWER_KEY_HEADER);
  }
}
