/**
 Secret masking in a stream of log chunks (`src/services/log-redaction.ts`).

 The redactor masks what it has, emits all of it except a tail that could still grow into a secret, and
 keeps that tail for the next chunk. What is proved is about whole streams: exactly which secrets get through
 however the text is cut, and exactly when the cut makes no difference at all.
 */
module LogRedaction {

  const MASK_LENGTH: nat := 9

  function Stars(n: nat): (s: string)
    ensures |s| == n && forall i :: 0 <= i < n ==> s[i] == '*'
  {
    if n == 0 then "" else ['*'] + Stars(n - 1)
  }

  /** What stands in place of a secret, whatever its length. */
  const REDACTION_MASK := Stars(MASK_LENGTH)

  /** `value` is found somewhere in `text`. */
  ghost predicate Occurs(value: string, text: string) {
    exists i :: 0 <= i <= |text| && value <= text[i..]
  }

  /** No mask inside, and no star at the end that the stars of a mask could stand for. */
  ghost predicate Settled(s: string) {
    (s != "" ==> s[|s| - 1] != '*') && !Occurs(REDACTION_MASK, s)
  }

  /** What the mask can have no part in: no star at either end, and no whole mask inside. */
  ghost predicate MaskSafe(s: string) {
    s != "" ==> s[0] != '*' && Settled(s)
  }

  /** `s` is the beginning, but not the whole, of some secret. */
  predicate Partial(values: seq<string>, s: string) {
    exists v | v in values :: |s| < |v| && s <= v
  }

  /** The last `n` characters. */
  function Suffix(text: string, n: nat): string
    requires n <= |text|
  {
    text[|text| - n..]
  }

  function Concat(chunks: seq<string>): string {
    if chunks == [] then "" else chunks[0] + Concat(chunks[1..])
  }

  // ---------- The secrets, as the redactor keeps them ----------

  predicate AllNonEmpty(values: seq<string>) {
    forall i :: 0 <= i < |values| ==> values[i] != ""
  }

  function NonEmptyDistinct(secrets: seq<string>): (r: seq<string>)
    ensures forall v :: v in r <==> v in secrets && v != ""
    ensures forall i, j :: 0 <= i < j < |r| ==> r[i] != r[j]
  {
    if secrets == [] then []
    else
      var rest := NonEmptyDistinct(secrets[..|secrets| - 1]);
      var last := secrets[|secrets| - 1];
      assert secrets == secrets[..|secrets| - 1] + [last];
      if last == "" || last in rest then rest else rest + [last]
  }

  predicate LongestFirst(values: seq<string>) {
    forall i, j :: 0 <= i < j < |values| ==> |values[i]| >= |values[j]|
  }

  /** Stable insertion: `v` goes behind every value that is at least as long. */
  function InsertByLength(v: string, sorted: seq<string>): (r: seq<string>)
    requires LongestFirst(sorted)
    ensures LongestFirst(r) && multiset(r) == multiset(sorted) + multiset{v}
  {
    InsertionPoint(v, sorted);
    var k := Longer(v, sorted);
    assert sorted == sorted[..k] + sorted[k..];
    sorted[..k] + [v] + sorted[k..]
  }

  /** How many of the values, from the front, are at least as long as `v`. */
  function Longer(v: string, sorted: seq<string>): (k: nat)
    ensures k <= |sorted|
  {
    if sorted == [] || |sorted[0]| < |v| then 0 else 1 + Longer(v, sorted[1..])
  }

  lemma {:induction false} InsertionPoint(v: string, sorted: seq<string>)
    requires LongestFirst(sorted)
    ensures forall i :: 0 <= i < Longer(v, sorted) ==> |sorted[i]| >= |v|
    ensures forall i :: Longer(v, sorted) <= i < |sorted| ==> |sorted[i]| < |v|
  {
    if sorted != [] && |sorted[0]| >= |v| {
      InsertionPoint(v, sorted[1..]);
    }
  }

  function SortByLength(values: seq<string>): (r: seq<string>)
    ensures LongestFirst(r) && multiset(r) == multiset(values)
  {
    if values == [] then []
    else
      assert values == values[..|values| - 1] + [values[|values| - 1]];
      InsertByLength(values[|values| - 1], SortByLength(values[..|values| - 1]))
  }

  /** Empty values dropped, duplicates dropped, longest first. */
  function Prepare(secrets: seq<string>): (values: seq<string>)
    ensures LongestFirst(values) && AllNonEmpty(values)
    ensures forall v :: v in values <==> v in secrets && v != ""
    ensures forall i, j :: 0 <= i < j < |values| ==> values[i] != values[j]
  {
    var distinct := NonEmptyDistinct(secrets);
    var r := SortByLength(distinct);
    SameMembers(distinct, r);
    assert forall i :: 0 <= i < |r| ==> r[i] in r;
    r
  }

  lemma SameMembers(a: seq<string>, b: seq<string>)
    requires multiset(a) == multiset(b)
    requires forall i, j :: 0 <= i < j < |a| ==> a[i] != a[j]
    ensures forall v :: v in a <==> v in b
    ensures forall i, j :: 0 <= i < j < |b| ==> b[i] != b[j]
  {
    forall v ensures v in a <==> v in b {
      assert v in a <==> v in multiset(a);
      assert v in b <==> v in multiset(b);
    }
    forall i, j | 0 <= i < j < |b| ensures b[i] != b[j] {
      if b[i] == b[j] {
        assert b == b[..i] + [b[i]] + b[i + 1..j] + [b[j]] + b[j + 1..];
        assert multiset(b)[b[i]] >= 2;
        AtMostOnce(a, b[i]);
      }
    }
  }

  lemma AtMostOnce(a: seq<string>, v: string)
    requires forall i, j :: 0 <= i < j < |a| ==> a[i] != a[j]
    ensures multiset(a)[v] <= 1
  {
    if a != [] {
      assert a == [a[0]] + a[1..];
      AtMostOnce(a[1..], v);
      if v in a[1..] {
        var k :| 0 <= k < |a[1..]| && a[1..][k] == v;
        assert a[k + 1] == v;
      }
    }
  }

  /** Where a secret is first listed. */
  function FirstIndex(secrets: seq<string>, v: string): (k: nat)
    ensures k <= |secrets|
  {
    if secrets == [] || secrets[0] == v then 0 else 1 + FirstIndex(secrets[1..], v)
  }

  lemma {:induction false} FirstIndexOfMore(secrets: seq<string>, last: string, v: string)
    ensures v in secrets ==> FirstIndex(secrets, v) == FirstIndex(secrets + [last], v) < |secrets|
    ensures v !in secrets && v == last ==> FirstIndex(secrets + [last], v) == |secrets|
  {
    if secrets != [] {
      assert (secrets + [last])[1..] == secrets[1..] + [last];
      FirstIndexOfMore(secrets[1..], last, v);
    }
  }

  lemma {:induction false} DistinctKeepsOrder(secrets: seq<string>)
    ensures forall i, j | 0 <= i < j < |NonEmptyDistinct(secrets)| ::
      FirstIndex(secrets, NonEmptyDistinct(secrets)[i]) < FirstIndex(secrets, NonEmptyDistinct(secrets)[j])
  {
    if secrets != [] {
      var front, last := secrets[..|secrets| - 1], secrets[|secrets| - 1];
      DistinctKeepsOrder(front);
      assert secrets == front + [last];
      var r := NonEmptyDistinct(secrets);
      forall i, j | 0 <= i < j < |r| ensures FirstIndex(secrets, r[i]) < FirstIndex(secrets, r[j]) {
        FirstIndexOfMore(front, last, r[i]);
        FirstIndexOfMore(front, last, r[j]);
        assert r[i] in NonEmptyDistinct(front);
      }
    }
  }

  /** Among values of one length the ranks increase. */
  ghost predicate Stable(values: seq<string>, rank: string -> int) {
    forall i, j | 0 <= i < j < |values| && |values[i]| == |values[j]| :: rank(values[i]) < rank(values[j])
  }

  lemma InsertedBetween(v: string, sorted: seq<string>) returns (a: seq<string>, b: seq<string>)
    requires LongestFirst(sorted)
    ensures a + b == sorted && a + [v] + b == InsertByLength(v, sorted)
    ensures forall i | 0 <= i < |b| :: |b[i]| < |v|
  {
    var k := Longer(v, sorted);
    InsertionPoint(v, sorted);
    a, b := sorted[..k], sorted[k..];
  }

  lemma InsertIsStable(v: string, sorted: seq<string>, rank: string -> int)
    requires LongestFirst(sorted) && Stable(sorted, rank) && forall i | 0 <= i < |sorted| :: rank(sorted[i]) < rank(v)
    ensures Stable(InsertByLength(v, sorted), rank)
  {
    var a, b := InsertedBetween(v, sorted);
    hide *;
    forall i | 0 <= i < |a| ensures rank(a[i]) < rank(v) {
      assert a[i] == sorted[i];
    }
    StableBetween(a, v, b, rank);
  }

  lemma StableBetween(a: seq<string>, v: string, b: seq<string>, rank: string -> int)
    requires Stable(a + b, rank)
    requires (forall i | 0 <= i < |a| :: rank(a[i]) < rank(v)) && forall i | 0 <= i < |b| :: |b[i]| < |v|
    ensures Stable(a + [v] + b, rank)
  {
    var r := a + [v] + b;
    forall i, j | 0 <= i < j < |r| && |r[i]| == |r[j]| ensures rank(r[i]) < rank(r[j]) {
      hide Stable;
      assert j > |a| ==> r[j] == b[j - |a| - 1];
      if j == |a| {
        assert r[i] == a[i];
      } else if i != |a| {
        var i', j' := if i < |a| then i else i - 1, if j < |a| then j else j - 1;
        assert r[i] == (a + b)[i'] && r[j] == (a + b)[j'];
        StablePair(a + b, rank, i', j');
      }
    }
  }

  lemma StablePair(values: seq<string>, rank: string -> int, i: nat, j: nat)
    requires Stable(values, rank) && i < j < |values| && |values[i]| == |values[j]|
    ensures rank(values[i]) < rank(values[j])
  {
  }

  lemma {:induction false} SortIsStable(values: seq<string>, rank: string -> int)
    requires forall i, j | 0 <= i < j < |values| :: rank(values[i]) < rank(values[j])
    ensures Stable(SortByLength(values), rank)
  {
    if values != [] {
      var front, last := values[..|values| - 1], values[|values| - 1];
      var sorted := SortByLength(front);
      SortIsStable(front, rank);
      forall i | 0 <= i < |sorted| ensures rank(sorted[i]) < rank(last) {
        assert sorted[i] in multiset(sorted);
        assert sorted[i] in front;
      }
      hide InsertByLength;
      InsertIsStable(last, sorted, rank);
    }
  }

  /** Secrets of one length are masked in the order they are listed. */
  lemma TiesKeepTheirOrder(secrets: seq<string>, i: nat, j: nat)
    requires i < j < |Prepare(secrets)| && |Prepare(secrets)[i]| == |Prepare(secrets)[j]|
    ensures FirstIndex(secrets, Prepare(secrets)[i]) < FirstIndex(secrets, Prepare(secrets)[j])
  {
    var distinct := NonEmptyDistinct(secrets);
    DistinctKeepsOrder(secrets);
    SortIsStable(distinct, v => FirstIndex(secrets, v));
  }

  // ---------- Masking ----------

  /** The pieces between leftmost, non-overlapping occurrences of `value`. */
  function Split(text: string, value: string): (pieces: seq<string>)
    requires value != ""
    ensures pieces != []
    decreases |text|
  {
    if text == "" then [""]
    else if value <= text then [""] + Split(text[|value|..], value)
    else
      var rest := Split(text[1..], value);
      [[text[0]] + rest[0]] + rest[1..]
  }

  function Join(pieces: seq<string>, separator: string): string
    requires pieces != []
  {
    if |pieces| == 1 then pieces[0] else pieces[0] + separator + Join(pieces[1..], separator)
  }

  /** `values.reduce((masked, value) => masked.split(value).join(MASK), text)`. */
  function Mask(values: seq<string>, text: string): string
    requires AllNonEmpty(values)
  {
    if values == [] then text
    else Mask(values[1..], Join(Split(text, values[0]), REDACTION_MASK))
  }

  /** One left-to-right pass that writes the mask over each occurrence of one value. */
  function Replace(text: string, value: string): string
    requires value != ""
    decreases |text|
  {
    if text == "" then ""
    else if value <= text then REDACTION_MASK + Replace(text[|value|..], value)
    else [text[0]] + Replace(text[1..], value)
  }

  lemma {:induction false} SplitJoinIsReplace(text: string, value: string)
    requires value != ""
    ensures Join(Split(text, value), REDACTION_MASK) == Replace(text, value)
    decreases |text|
  {
    if text == "" {
    } else if value <= text {
      SplitJoinIsReplace(text[|value|..], value);
      var rest := Split(text[|value|..], value);
      assert ([""] + rest)[1..] == rest;
      assert "" + REDACTION_MASK + Join(rest, REDACTION_MASK) == REDACTION_MASK + Join(rest, REDACTION_MASK);
    } else {
      SplitJoinIsReplace(text[1..], value);
      var rest := Split(text[1..], value);
      var pieces := [[text[0]] + rest[0]] + rest[1..];
      assert pieces[1..] == rest[1..];
      if |rest| > 1 {
        assert [text[0]] + rest[0] + REDACTION_MASK + Join(rest[1..], REDACTION_MASK)
            == [text[0]] + (rest[0] + REDACTION_MASK + Join(rest[1..], REDACTION_MASK));
      }
    }
  }

  // ---------- What one pass does to strings the mask can have no part in ----------

  lemma FrontMask(rest: string)
    ensures Occurs(REDACTION_MASK, REDACTION_MASK + rest)
  {
    assert REDACTION_MASK <= (REDACTION_MASK + rest)[0..];
  }

  lemma CoversTheMask(p: string, rest: string)
    requires p <= REDACTION_MASK + rest && |p| >= MASK_LENGTH
    ensures Occurs(REDACTION_MASK, p)
  {
    assert p[..MASK_LENGTH] == (REDACTION_MASK + rest)[..MASK_LENGTH] == REDACTION_MASK;
    assert p[0..] == p;
    assert REDACTION_MASK <= p[0..];
  }

  /** What starts inside a mask starts with a star; what also ends there is all stars. */
  lemma StarsOfTheMask(p: string, rest: string, i: nat)
    requires i < MASK_LENGTH && p != "" && p <= (REDACTION_MASK + rest)[i..]
    ensures p[0] == '*' && (i + |p| <= MASK_LENGTH ==> p[|p| - 1] == '*')
  {
    assert p[0] == (REDACTION_MASK + rest)[i] == REDACTION_MASK[i];
    if i + |p| <= MASK_LENGTH {
      assert p[|p| - 1] == (REDACTION_MASK + rest)[i + |p| - 1] == REDACTION_MASK[i + |p| - 1];
    }
  }

  /** A string with no mask and no star at its end cannot begin where a mask does. */
  lemma StartsNoMask(p: string, rest: string)
    requires Settled(p) && p <= REDACTION_MASK + rest
    ensures p == ""
  {
    if |p| >= MASK_LENGTH {
      CoversTheMask(p, rest);
    } else if p != "" {
      assert (REDACTION_MASK + rest)[0..] == REDACTION_MASK + rest;
      StarsOfTheMask(p, rest, 0);
    }
  }

  lemma SettledTail(p: string, n: nat)
    requires Settled(p) && n <= |p|
    ensures Settled(p[n..])
  {
    if Occurs(REDACTION_MASK, p[n..]) {
      OccursLater(REDACTION_MASK, p, n);
    }
  }

  lemma {:induction false} SettledPrefixKept(text: string, value: string, p: string)
    requires value != "" && Settled(p) && p <= Replace(text, value)
    ensures p <= text
    decreases |text|
  {
    if text == "" || p == "" {
    } else if value <= text {
      StartsNoMask(p, Replace(text[|value|..], value));
    } else {
      assert p[1..] <= Replace(text[1..], value);
      SettledTail(p, 1);
      SettledPrefixKept(text[1..], value, p[1..]);
      assert text == [text[0]] + text[1..] && p == [p[0]] + p[1..];
    }
  }

  /** A pass that leaves no mask behind has changed nothing. */
  lemma {:induction false} NoMaskNoChange(text: string, value: string)
    requires value != "" && !Occurs(REDACTION_MASK, Replace(text, value))
    ensures Replace(text, value) == text
    decreases |text|
  {
    var r := Replace(text, value);
    if text == "" {
    } else if value <= text {
      FrontMask(Replace(text[|value|..], value));
    } else {
      assert r[1..] == Replace(text[1..], value);
      if Occurs(REDACTION_MASK, r[1..]) {
        OccursLater(REDACTION_MASK, r, 1);
      }
      NoMaskNoChange(text[1..], value);
    }
  }

  /** A mask-safe string found after a pass was there before it, and is not the value masked. */
  lemma {:induction false} OccurrenceWasThere(text: string, value: string, w: string, i: nat)
    requires value != "" && w != "" && MaskSafe(w)
    requires i <= |Replace(text, value)| && w <= Replace(text, value)[i..]
    ensures w != value && Occurs(w, text)
    decreases |text|
  {
    var r := Replace(text, value);
    if text == "" {
      assert false;
    } else if value <= text {
      var tail := Replace(text[|value|..], value);
      assert r == REDACTION_MASK + tail;
      if i < |REDACTION_MASK| {
        StarsOfTheMask(w, tail, i);
      } else {
        assert r[i..] == tail[i - |REDACTION_MASK|..];
        OccurrenceWasThere(text[|value|..], value, w, i - |REDACTION_MASK|);
        OccursLater(w, text, |value|);
      }
    } else if i == 0 {
      assert r[0..] == r;
      SettledPrefixKept(text, value, w);
      assert text[0..] == text;
    } else {
      assert r[i..] == Replace(text[1..], value)[i - 1..];
      OccurrenceWasThere(text[1..], value, w, i - 1);
      OccursLater(w, text, 1);
    }
  }

  lemma OccursLater(w: string, text: string, from: nat)
    requires from <= |text| && Occurs(w, text[from..])
    ensures Occurs(w, text)
  {
    var i :| 0 <= i <= |text[from..]| && w <= text[from..][i..];
    assert text[from..][i..] == text[from + i..];
  }

  lemma OccursEarly(w: string, front: string, back: string, other: string, i: nat)
    requires i + |w| <= |front| && w <= (front + back)[i..]
    ensures Occurs(w, front + other)
  {
    assert (front + back)[i..][..|w|] == front[i..i + |w|] == (front + other)[i..][..|w|];
    assert w <= (front + other)[i..];
  }

  // ---------- What the whole mask does ----------

  lemma MaskUnfold(values: seq<string>, text: string)
    requires AllNonEmpty(values) && values != []
    ensures AllNonEmpty(values[1..])
    ensures Mask(values, text) == Mask(values[1..], Replace(text, values[0]))
  {
    SplitJoinIsReplace(text, values[0]);
  }

  lemma {:induction false} MaskKeepsPrefix(values: seq<string>, text: string, p: string)
    requires AllNonEmpty(values) && Settled(p) && p <= Mask(values, text)
    ensures p <= text
  {
    if values != [] {
      MaskUnfold(values, text);
      MaskKeepsPrefix(values[1..], Replace(text, values[0]), p);
      SettledPrefixKept(text, values[0], p);
    }
  }

  lemma {:induction false} UnmaskedIsUntouched(values: seq<string>, text: string)
    requires AllNonEmpty(values) && !Occurs(REDACTION_MASK, Mask(values, text))
    ensures Mask(values, text) == text
  {
    if values != [] {
      MaskUnfold(values, text);
      UnmaskedIsUntouched(values[1..], Replace(text, values[0]));
      NoMaskNoChange(text, values[0]);
    }
  }

  lemma {:induction false} MaskAddsNothing(values: seq<string>, text: string, w: string)
    requires AllNonEmpty(values) && w != "" && MaskSafe(w) && Occurs(w, Mask(values, text))
    ensures Occurs(w, text) && w !in values
  {
    if values != [] {
      MaskUnfold(values, text);
      var next := Replace(text, values[0]);
      MaskAddsNothing(values[1..], next, w);
      var i :| 0 <= i <= |next| && w <= next[i..];
      OccurrenceWasThere(text, values[0], w, i);
      assert forall v | v in values :: v == values[0] || v in values[1..];
    }
  }

  lemma {:induction false} NoOccurrenceNoChange(text: string, value: string)
    requires value != "" && !Occurs(value, text)
    ensures Replace(text, value) == text
    decreases |text|
  {
    if text != "" {
      assert text[0..] == text;
      if Occurs(value, text[1..]) {
        OccursLater(value, text, 1);
      }
      NoOccurrenceNoChange(text[1..], value);
    }
  }

  lemma {:induction false} MaskOfCleanText(values: seq<string>, text: string)
    requires AllNonEmpty(values) && forall v | v in values :: !Occurs(v, text)
    ensures Mask(values, text) == text
  {
    if values != [] {
      MaskUnfold(values, text);
      NoOccurrenceNoChange(text, values[0]);
      MaskOfCleanText(values[1..], text);
    }
  }

  // ---------- The held-back tail ----------

  /** Length of the longest suffix of `text` that is a proper prefix of some secret. */
  function HeldBack(values: seq<string>, text: string): (n: nat)
    ensures n <= |text|
  {
    if text == "" || Partial(values, text) then |text| else HeldBack(values, text[1..])
  }

  lemma {:induction false} HeldBackIsLongest(values: seq<string>, text: string)
    ensures var n := HeldBack(values, text);
            && (n > 0 ==> Partial(values, Suffix(text, n)))
            && forall m: nat | n < m <= |text| :: !Partial(values, Suffix(text, m))
  {
    if text == "" {
    } else if Partial(values, text) {
      assert text[0..] == text;
    } else {
      HeldBackIsLongest(values, text[1..]);
      var n := HeldBack(values, text[1..]);
      assert Suffix(text[1..], n) == Suffix(text, n);
      forall m: nat | n < m <= |text| ensures !Partial(values, Suffix(text, m)) {
        if m == |text| {
          assert text[0..] == text;
        } else {
          assert Suffix(text[1..], m) == Suffix(text, m);
        }
      }
    }
  }

  lemma HeldBackUnique(values: seq<string>, text: string, n: nat)
    requires n <= |text| && (n > 0 ==> Partial(values, Suffix(text, n)))
    requires forall m: nat | n < m <= |text| :: !Partial(values, Suffix(text, m))
    ensures n == HeldBack(values, text)
  {
    HeldBackIsLongest(values, text);
  }

  // ---------- The redactor ----------

  /** What one chunk makes of the held tail: the text emitted and the new tail. */
  function RedactStep(values: seq<string>, held: string, chunk: string): (r: (string, string))
    requires AllNonEmpty(values)
  {
    if values == [] then (chunk, held)
    else
      var masked := Mask(values, held + chunk);
      var keep := HeldBack(values, masked);
      (masked[..|masked| - keep], masked[|masked| - keep..])
  }

  /** Everything let out from here on: what each chunk in order emits, then the flush of the last tail. */
  function Stream(values: seq<string>, held: string, chunks: seq<string>): string
    requires AllNonEmpty(values)
    decreases |chunks|
  {
    if chunks == [] then held
    else
      var (out, tail) := RedactStep(values, held, chunks[0]);
      out + Stream(values, tail, chunks[1..])
  }

  lemma Assoc(a: string, b: string, c: string)
    ensures (a + b) + c == a + (b + c)
  {
  }

  /** Everything a fresh redactor lets out for `chunks`, the final flush included. */
  function Streamed(secrets: seq<string>, chunks: seq<string>): string {
    Stream(Prepare(secrets), "", chunks)
  }

  class LogRedactor {
    const values: seq<string>
    var held: string

    constructor (secrets: seq<string>)
      ensures values == Prepare(secrets) && held == ""
    {
      values := Prepare(secrets);
      held := "";
    }

    /** Counts down from the longest tail any secret could need. */
    method HeldBackLength(text: string) returns (length: nat)
      requires values != [] && AllNonEmpty(values) && LongestFirst(values)
      ensures length == HeldBack(values, text)
    {
      length := if |text| < |values[0]| - 1 then |text| else |values[0]| - 1;
      assert forall m: nat | length < m <= |text| :: !Partial(values, Suffix(text, m));
      while length > 0
        invariant length <= |text|
        invariant forall m: nat | length < m <= |text| :: !Partial(values, Suffix(text, m))
      {
        if Partial(values, Suffix(text, length)) {
          HeldBackUnique(values, text, length);
          return;
        }
        length := length - 1;
      }
      HeldBackUnique(values, text, 0);
    }

    method Redact(chunk: string) returns (out: string)
      requires AllNonEmpty(values) && LongestFirst(values)
      modifies this`held
      ensures (out, held) == RedactStep(values, old(held), chunk)
    {
      if values == [] {
        return chunk;
      }
      var masked := Mask(values, held + chunk);
      var keep := HeldBackLength(masked);
      held := masked[|masked| - keep..];
      out := masked[..|masked| - keep];
    }

    method Flush() returns (rest: string)
      modifies this`held
      ensures rest == old(held) && held == ""
    {
      rest := held;
      held := "";
    }
  }

  /** The redactor's use over one log: every chunk through `Redact`, then one `Flush`. */
  method RedactAll(secrets: seq<string>, chunks: seq<string>) returns (log: string)
    ensures log == Streamed(secrets, chunks)
  {
    var redactor := new LogRedactor(secrets);
    var values := redactor.values;
    log := "";
    for i := 0 to |chunks|
      invariant redactor.values == values
      invariant log + Stream(values, redactor.held, chunks[i..]) == Stream(values, "", chunks)
    {
      ghost var before := redactor.held;
      var out := redactor.Redact(chunks[i]);
      ghost var rest := Stream(values, redactor.held, chunks[i + 1..]);
      assert chunks[i..][1..] == chunks[i + 1..];
      Assoc(log, out, rest);
      log := log + out;
    }
    var rest := redactor.Flush();
    log := log + rest;
  }

  // ---------- No secret gets through, however the text is cut ----------

  ghost predicate Clean(values: seq<string>, text: string) {
    forall v {:trigger Occurs(v, text)} | v in values :: !Occurs(v, text)
  }

  /** No ending of `text` longer than `h` could still grow into a secret. */
  ghost predicate TailWithin(values: seq<string>, text: string, h: nat) {
    forall n: nat | h < n <= |text| :: !Partial(values, Suffix(text, n))
  }

  ghost predicate MaskableSecrets(values: seq<string>) {
    AllNonEmpty(values) && forall v {:trigger MaskSafe(v)} | v in values :: MaskSafe(v)
  }

  lemma EndingIsHeld(values: seq<string>, text: string, h: nat, k: nat, v: string)
    requires Clean(values, text) && TailWithin(values, text, h)
    requires v in values && k <= |text| && text[k..] <= v
    ensures |text| - k <= h
  {
    var n := |text| - k;
    assert Suffix(text, n) == text[k..];
    if text[k..] == v {
      assert Occurs(v, text);
    }
  }

  /** A secret cannot end in emitted text, run on through `p`, and reach as far as the held tail does. */
  lemma CrossingStaysInHeld(
      values: seq<string>, emitted: string, held: string, chunk: string, k: nat, p: string, v: string)
    requires AllNonEmpty(values) && Clean(values, emitted + held) && TailWithin(values, emitted + held, |held|)
    requires k < |emitted| && p <= held + chunk
    requires v in values && emitted[k..] + p <= v
    ensures |p| < |held| && emitted[k..] + p != v
  {
    var text := emitted + held;
    EndingOf(emitted, held, k);
    hide *;
    var ending := emitted[k..];
    if |held| <= |p| {
      SharedStart(held, chunk, p);
      PrefixUnder(ending, held, p, v);
      EndingIsHeld(values, text, |held|, k, v);
    } else {
      SharedEnd(held, chunk, p);
      PrefixUnder(ending, p, held, ending + held);
      NotWhole(values, text, k, v);
    }
  }

  lemma EndingOf(a: string, b: string, k: nat)
    requires k <= |a|
    ensures (a + b)[k..] == a[k..] + b
  {
  }

  lemma PrefixUnder(a: string, x: string, y: string, whole: string)
    requires x <= y && a + y <= whole
    ensures a + x <= whole
  {
    assert (a + y)[..|a + x|] == a + x;
  }

  lemma NotWhole(values: seq<string>, text: string, k: nat, v: string)
    requires Clean(values, text) && v in values && k <= |text|
    ensures !(v <= text[k..])
  {
    assert !Occurs(v, text);
  }

  lemma SharedEnd(a: string, rest: string, p: string)
    requires p <= a + rest && |p| <= |a|
    ensures p <= a
  {
    assert p == (a + rest)[..|p|] == a[..|p|];
  }

  lemma SharedStart(a: string, rest: string, p: string)
    requires p <= a + rest && |a| <= |p|
    ensures a <= p
  {
    assert p[..|a|] == (a + rest)[..|a|] == a;
  }

  lemma StepStaysClean(values: seq<string>, emitted: string, held: string, chunk: string, v: string)
    requires MaskableSecrets(values) && v in values
    requires Clean(values, emitted + held) && TailWithin(values, emitted + held, |held|)
    ensures !Occurs(v, emitted + Mask(values, held + chunk))
  {
    var masked := Mask(values, held + chunk);
    var all := emitted + masked;
    if Occurs(v, all) {
      var i :| 0 <= i <= |all| && v <= all[i..];
      if i >= |emitted| {
        assert all[i..] == masked[i - |emitted|..];
        MaskAddsNothing(values, held + chunk, v);
      } else if i + |v| <= |emitted| {
        OccursEarly(v, emitted, masked, held, i);
      } else {
        var p := v[|emitted| - i..];
        assert v == all[i..][..|v|] == emitted[i..] + p;
        assert p == masked[..|p|];
        assert MaskSafe(v);
        SettledTail(v, |emitted| - i);
        MaskKeepsPrefix(values, held + chunk, p);
        CrossingStaysInHeld(values, emitted, held, chunk, i, p, v);
      }
    }
  }

  lemma StepTailWithin(values: seq<string>, emitted: string, held: string, chunk: string, n: nat)
    requires MaskableSecrets(values)
    requires Clean(values, emitted + held) && TailWithin(values, emitted + held, |held|)
    requires HeldBack(values, Mask(values, held + chunk)) < n <= |emitted + Mask(values, held + chunk)|
    ensures !Partial(values, Suffix(emitted + Mask(values, held + chunk), n))
  {
    var masked := Mask(values, held + chunk);
    var s := Suffix(emitted + masked, n);
    if n <= |masked| {
      HeldBackIsLongest(values, masked);
      assert s == Suffix(masked, n);
    } else if Partial(values, s) {
      var k := |emitted| + |masked| - n;
      assert s == emitted[k..] + masked;
      var v :| v in values && |s| < |v| && s <= v;
      assert MaskSafe(v);
      PartOf(masked, emitted[k..], v);
      UnmaskedIsUntouched(values, held + chunk);
      CrossingStaysInHeld(values, emitted, held, chunk, k, masked, v);
    }
  }

  lemma OccursInside(w: string, front: string, p: string, v: string)
    requires front + p <= v && Occurs(w, p)
    ensures Occurs(w, v)
  {
    var i :| 0 <= i <= |p| && w <= p[i..];
    assert (front + p)[|front| + i..] == p[i..];
    assert v[|front| + i..][..|w|] == (front + p)[|front| + i..][..|w|];
    assert w <= v[|front| + i..];
  }

  lemma PartOf(p: string, front: string, v: string)
    requires front + p <= v && Settled(v)
    ensures !Occurs(REDACTION_MASK, p)
  {
    if Occurs(REDACTION_MASK, p) {
      OccursInside(REDACTION_MASK, front, p, v);
    }
  }

  /** One chunk keeps both halves of the guard, for the text emitted and held together. */
  lemma StepKeepsGuard(values: seq<string>, emitted: string, held: string, chunk: string)
    requires MaskableSecrets(values)
    requires Clean(values, emitted + held) && TailWithin(values, emitted + held, |held|)
    ensures var masked := Mask(values, held + chunk);
            Clean(values, emitted + masked) && TailWithin(values, emitted + masked, HeldBack(values, masked))
  {
    var masked := Mask(values, held + chunk);
    forall v | v in values ensures !Occurs(v, emitted + masked) {
      StepStaysClean(values, emitted, held, chunk, v);
    }
    forall n: nat | HeldBack(values, masked) < n <= |emitted + masked|
      ensures !Partial(values, Suffix(emitted + masked, n))
    {
      StepTailWithin(values, emitted, held, chunk, n);
    }
  }

  lemma {:induction false} StreamStaysClean(values: seq<string>, emitted: string, held: string, chunks: seq<string>)
    requires MaskableSecrets(values) && values != []
    requires Clean(values, emitted + held) && TailWithin(values, emitted + held, |held|)
    ensures Clean(values, emitted + Stream(values, held, chunks))
    decreases |chunks|
  {
    if chunks != [] {
      var (out, tail) := RedactStep(values, held, chunks[0]);
      StepKeepsGuard(values, emitted, held, chunks[0]);
      Assoc(emitted, out, tail);
      assert out + tail == Mask(values, held + chunks[0]);
      StreamStaysClean(values, emitted + out, tail, chunks[1..]);
      Assoc(emitted, out, Stream(values, tail, chunks[1..]));
    }
  }

  /** Any mask-safe secrets, any text, any way of cutting it: no secret appears in what is let out. */
  lemma {:induction false} NoSecretInOutput(secrets: seq<string>, chunks: seq<string>)
    requires forall s | s in secrets :: MaskSafe(s)
    ensures forall s | s in secrets && s != "" :: !Occurs(s, Streamed(secrets, chunks))
  {
    var values := Prepare(secrets);
    if values != [] {
      assert "" + "" == "";
      forall v | v in values ensures !Occurs(v, "") { }
      StreamStaysClean(values, "", "", chunks);
      assert "" + Streamed(secrets, chunks) == Streamed(secrets, chunks);
    }
    forall s | s in secrets && s != "" ensures !Occurs(s, Streamed(secrets, chunks)) {
      assert s in values;
    }
  }

  // ---------- When the cut makes no difference at all ----------

  /** Neither string lies inside the other, and no ending of `u` begins `v`. */
  predicate Apart(u: string, v: string) {
    forall i | 0 <= i < |u| :: !(v <= u[i..]) && !(u[i..] <= v)
  }

  /** `v` does not occur in `u` short of its last character; it may end where `u` ends. */
  predicate KeepsOut(u: string, v: string) {
    forall i | 0 <= i && i + |v| < |u| :: !(v <= u[i..])
  }

  /** `u`, masked first, holds no `v` while only a part of it has come, and no proper ending of `v` begins it. */
  predicate Orderly(u: string, v: string) {
    KeepsOut(u, v) && forall k | 0 < k < |v| :: !(v[k..] <= u)
  }

  ghost predicate AllOrderly(values: seq<string>) {
    forall i, j {:trigger Orderly(values[i], values[j])} | 0 <= i < j < |values| :: Orderly(values[i], values[j])
  }

  predicate Distinct(values: seq<string>) {
    forall i, j :: 0 <= i < j < |values| ==> values[i] != values[j]
  }

  /** Values as the redactor keeps them, mask-safe, and none in the way of one masked before it. */
  ghost predicate WellOrdered(values: seq<string>) {
    MaskableSecrets(values) && LongestFirst(values) && Distinct(values) && AllOrderly(values)
  }

  lemma OthersWellOrdered(values: seq<string>)
    requires WellOrdered(values) && values != []
    ensures WellOrdered(values[1..])
  {
    var others := values[1..];
    forall v | v in others ensures MaskSafe(v) {
      assert v in values;
    }
    forall i, j | 0 <= i < j < |others| ensures Orderly(others[i], others[j]) {
      assert Orderly(values[i + 1], values[j + 1]);
    }
  }

  /** A value masked later has nothing in common with the front of one masked before it. */
  lemma LaterIsApart(u: string, v: string)
    requires Orderly(u, v) && u != v && |v| <= |u|
    ensures Apart(v, u)
  {
    forall i | 0 <= i < |v| ensures !(u <= v[i..]) && !(v[i..] <= u) {
      if i == 0 {
        assert v[0..] == v && u[0..] == u;
      }
    }
  }

  lemma NoSharedFront(u: string, v: string)
    requires Orderly(u, v) && u != v && |v| <= |u| && v != ""
    ensures !(v <= u)
  {
    LaterIsApart(u, v);
    assert v[0..] == v;
  }

  function FirstHit(values: seq<string>, text: string): (r: string)
    ensures r == "" || (r in values && r <= text)
  {
    if values == [] then "" else if values[0] != "" && values[0] <= text then values[0] else FirstHit(values[1..], text)
  }

  /** All values masked at once, in one left-to-right pass: what masking means when no secret is in the way. */
  function Scan(values: seq<string>, text: string): string
    decreases |text|
  {
    if text == "" then ""
    else
      var hit := FirstHit(values, text);
      if hit != "" then REDACTION_MASK + Scan(values, text[|hit|..]) else [text[0]] + Scan(values, text[1..])
  }

  lemma {:induction false} NoHit(values: seq<string>, text: string)
    requires AllNonEmpty(values) && FirstHit(values, text) == ""
    ensures forall v | v in values :: !(v <= text)
  {
    if values != [] {
      NoHit(values[1..], text);
      assert forall v | v in values :: v == values[0] || v in values[1..];
    }
  }

  lemma SameStart(u: string, v: string, text: string)
    requires u <= text && v <= text
    ensures u <= v || v <= u
  {
    if |u| <= |v| {
      assert v[..|u|] == text[..|u|] == u;
    } else {
      assert u[..|v|] == text[..|v|] == v;
    }
  }

  /** Different secrets cannot start at the same place. */
  lemma HitIsUnique(values: seq<string>, text: string, v: string)
    requires WellOrdered(values) && v in values && v <= text
    ensures FirstHit(values, text) == v
  {
    var hit := FirstHit(values, text);
    if hit == "" {
      NoHit(values, text);
    } else if hit != v {
      var i :| 0 <= i < |values| && values[i] == hit;
      var j :| 0 <= j < |values| && values[j] == v;
      SameStart(hit, v, text);
      if i < j {
        NoSharedFront(hit, v);
      } else {
        NoSharedFront(v, hit);
      }
    }
  }

  lemma FirstsMatch(v: string, w: string)
    ensures v != "" && w != "" && v <= w ==> v[0] == w[0]
  {
  }

  lemma NotAtAStar(values: seq<string>, v: string, text: string)
    requires MaskableSecrets(values) && v in values && v != ""
    ensures !(v <= ['*'] + text)
  {
    assert MaskSafe(v);
    FirstsMatch(v, ['*'] + text);
  }

  lemma ScanPastStar(values: seq<string>, text: string)
    requires MaskableSecrets(values)
    ensures Scan(values, ['*'] + text) == ['*'] + Scan(values, text)
  {
    var all := ['*'] + text;
    var hit := FirstHit(values, all);
    if hit != "" {
      NotAtAStar(values, hit, text);
    }
    assert all[1..] == text;
  }

  lemma {:induction false} ScanPastStars(values: seq<string>, n: nat, text: string)
    requires MaskableSecrets(values)
    ensures Scan(values, Stars(n) + text) == Stars(n) + Scan(values, text)
  {
    if n == 0 {
      assert Stars(0) + text == text;
    } else {
      Assoc(['*'], Stars(n - 1), text);
      ScanPastStar(values, Stars(n - 1) + text);
      ScanPastStars(values, n - 1, text);
      Assoc(['*'], Stars(n - 1), Scan(values, text));
    }
  }

  /** A value that cannot start anywhere in `w` leaves a leading `w` alone. */
  lemma {:induction false} ReplaceKeepsStart(w: string, rest: string, value: string, i: nat)
    requires value != "" && i <= |w|
    requires forall k | 0 <= k < |w| :: !(value <= w[k..]) && !(w[k..] <= value)
    ensures Replace(w[i..] + rest, value) == w[i..] + Replace(rest, value)
    decreases |w| - i
  {
    var all := w[i..] + rest;
    if i == |w| {
      assert all == rest;
    } else {
      if value <= all {
        SameStart(w[i..], value, all);
      }
      assert all[0] == w[i] && all[1..] == w[i + 1..] + rest;
      ReplaceKeepsStart(w, rest, value, i + 1);
      assert w[i..] == [w[i]] + w[i + 1..];
    }
  }

  lemma ScanHit(values: seq<string>, v: string, rest: string)
    requires WellOrdered(values) && v in values
    ensures Scan(values, v + rest) == REDACTION_MASK + Scan(values, rest)
  {
    HitIsUnique(values, v + rest, v);
    assert (v + rest)[|v|..] == rest;
  }

  /** A different secret sitting at the front does not stop another value from being replaced behind it. */
  lemma ReplaceBehind(w: string, rest: string, value: string)
    requires value != "" && Apart(w, value)
    ensures Replace(w + rest, value) == w + Replace(rest, value)
  {
    assert w[0..] == w;
    ReplaceKeepsStart(w, rest, value, 0);
  }

  lemma NoNewHit(values: seq<string>, text: string, value: string)
    requires MaskableSecrets(values) && text != "" && FirstHit(values, text) == "" && value in values
    ensures FirstHit(values[1..], Replace(text, value)) == ""
  {
    var next := Replace(text, value);
    var later := FirstHit(values[1..], next);
    if later != "" {
      assert later in values && MaskSafe(later);
      SettledPrefixKept(text, value, later);
      NoHit(values, text);
    }
  }

  /** Masking one value first and scanning for the others is scanning for all of them. */
  lemma {:induction false} ScanAfterReplace(values: seq<string>, text: string)
    requires WellOrdered(values) && values != []
    ensures Scan(values[1..], Replace(text, values[0])) == Scan(values, text)
    decreases |text|
  {
    var value, others := values[0], values[1..];
    var hit := FirstHit(values, text);
    OthersWellOrdered(values);
    if text == "" {
    } else if hit == value {
      var rest := text[|value|..];
      ScanAfterReplace(values, rest);
      ScanPastStars(others, MASK_LENGTH, Replace(rest, value));
    } else if hit != "" {
      var rest := text[|hit|..];
      HitBehindHead(values, text);
      var j :| 1 <= j < |values| && values[j] == hit;
      LaterIsApart(value, hit);
      assert text == hit + rest;
      ReplaceBehind(hit, rest, value);
      ScanHit(others, hit, Replace(rest, value));
      ScanAfterReplace(values, rest);
    } else {
      NoHit(values, text);
      NoNewHit(values, text, value);
      assert Replace(text, value)[1..] == Replace(text[1..], value);
      ScanAfterReplace(values, text[1..]);
    }
  }

  lemma HitBehindHead(values: seq<string>, text: string)
    requires values != [] && FirstHit(values, text) !in {"", values[0]}
    ensures FirstHit(values, text) == FirstHit(values[1..], text) && FirstHit(values, text) in values[1..]
  {
  }

  lemma {:induction false} MaskIsScan(values: seq<string>, text: string)
    requires WellOrdered(values)
    ensures Mask(values, text) == Scan(values, text)
  {
    if values == [] {
      ScanForNothing(text);
    } else {
      MaskUnfold(values, text);
      OthersWellOrdered(values);
      MaskIsScan(values[1..], Replace(text, values[0]));
      ScanAfterReplace(values, text);
    }
  }

  lemma {:induction false} ScanForNothing(text: string)
    ensures Scan([], text) == text
    decreases |text|
  {
    if text != "" {
      ScanForNothing(text[1..]);
    }
  }

  lemma HeldBackPastStar(values: seq<string>, text: string)
    requires MaskableSecrets(values)
    ensures HeldBack(values, ['*'] + text) == HeldBack(values, text)
  {
    var all := ['*'] + text;
    forall v | v in values ensures !(|all| < |v| && all <= v) {
      assert MaskSafe(v);
      FirstsMatch(all, v);
    }
    assert all[1..] == text;
  }

  lemma {:induction false} HeldBackPastStars(values: seq<string>, n: nat, text: string)
    requires MaskableSecrets(values)
    ensures HeldBack(values, Stars(n) + text) == HeldBack(values, text)
  {
    if n == 0 {
      assert Stars(0) + text == text;
    } else {
      Assoc(['*'], Stars(n - 1), text);
      HeldBackPastStar(values, Stars(n - 1) + text);
      HeldBackPastStars(values, n - 1, text);
    }
  }

  lemma ShortOfItsEnd(v: string, hit: string, k: nat, n: nat)
    requires k <= n < |v| && Orderly(v, hit)
    ensures !(hit <= v[k..n])
  {
    if k + |hit| <= n {
      assert !(hit <= v[k..]);
      assert v[k..][..|hit|] == v[k..n][..|hit|];
    }
  }

  /** A stretch of a secret short of its last character holds no other: later ones are not there, longer do not fit. */
  lemma NothingInside(values: seq<string>, v: string, k: nat, n: nat)
    requires WellOrdered(values) && v in values && k <= n < |v|
    ensures FirstHit(values, v[k..n]) == ""
  {
    var hit := FirstHit(values, v[k..n]);
    if hit != "" {
      var a :| 0 <= a < |values| && values[a] == v;
      var b :| 0 <= b < |values| && values[b] == hit;
      assert b > a;
      ShortOfItsEnd(v, hit, k, n);
    }
  }

  /** `text` that begins a secret is read unchanged: nothing can be masked in it yet. */
  lemma {:induction false} ScanOfPartial(values: seq<string>, v: string, k: nat, n: nat)
    requires WellOrdered(values) && v in values && k <= n < |v|
    ensures Scan(values, v[k..n]) == v[k..n]
    decreases n - k
  {
    if k < n {
      NothingInside(values, v, k, n);
      ScanOfPartial(values, v, k + 1, n);
      assert v[k..n][1..] == v[k + 1..n];
    }
  }

  /** What two ways of cutting the same string in two have in common. */
  lemma Peel(head: string, rest: string, front: string, tail: string)
    requires head + rest == front + tail && |tail| <= |rest|
    ensures front == head + front[|head|..] && rest == front[|head|..] + tail
  {
    assert front == (front + tail)[..|front|] == (head + rest)[..|front|];
    assert rest == (head + rest)[|head|..] == (front + tail)[|head|..];
  }

  lemma HeldBackPastChar(values: seq<string>, c: char, done: string)
    requires !Partial(values, [c] + done)
    ensures HeldBack(values, [c] + done) == HeldBack(values, done)
  {
    assert ([c] + done)[1..] == done;
  }

  /** If nothing starts in `text` alone but something does in `text + more`, then `text` begins that secret. */
  lemma NoHitYet(values: seq<string>, text: string, more: string)
    requires WellOrdered(values)
    requires FirstHit(values, text) == "" && FirstHit(values, text + more) != ""
    ensures Partial(values, text) && Scan(values, text) == text
  {
    NoHit(values, text);
    var hit := FirstHit(values, text + more);
    SameStart(hit, text, text + more);
    assert text == hit[0..|text|];
    ScanOfPartial(values, hit, 0, |text|);
  }

  lemma PartialIsUnread(values: seq<string>, text: string)
    requires MaskableSecrets(values) && Partial(values, Scan(values, text))
    ensures Scan(values, text) == text
  {
    var done := Scan(values, text);
    var v :| v in values && |done| < |v| && done <= v;
    assert MaskSafe(v);
    PartOf(done, "", v);
    ScanUnmaskedUntouched(values, text);
  }

  lemma ScanMiss(values: seq<string>, text: string)
    requires text != "" && FirstHit(values, text) == ""
    ensures Scan(values, text) == [text[0]] + Scan(values, text[1..])
  {
  }

  /** Scanning more text can pick up at the held tail of what was scanned before. */
  lemma {:induction false} ScanResumes(values: seq<string>, text: string, more: string, front: string, tail: string)
    requires WellOrdered(values)
    requires Scan(values, text) == front + tail && |tail| == HeldBack(values, front + tail)
    ensures Scan(values, text + more) == front + Scan(values, tail + more)
    decreases |text|
  {
    if text == "" {
      assert front == "" && tail == "";
    } else if Partial(values, front + tail) {
      PartialIsUnread(values, text);
      assert front == "" && tail == text;
    } else if FirstHit(values, text) != "" {
      ScanResumesBehindHit(values, text, more, front, tail);
    } else {
      ScanResumesBehindChar(values, text, more, front, tail);
    }
  }

  lemma {:induction false} ScanResumesBehindHit(
      values: seq<string>, text: string, more: string, front: string, tail: string)
    requires WellOrdered(values) && text != "" && FirstHit(values, text) != ""
    requires Scan(values, text) == front + tail && |tail| == HeldBack(values, front + tail)
    ensures Scan(values, text + more) == front + Scan(values, tail + more)
    decreases |text|, 0
  {
    var hit := FirstHit(values, text);
    var rest := text[|hit|..];
    assert text == hit + rest;
    ScanHit(values, hit, rest);
    hide *;
    var done := Scan(values, rest);
    PeelMask(values, done, front, tail);
    var left := front[MASK_LENGTH..];
    ScanResumes(values, rest, more, left, tail);
    Assoc(hit, rest, more);
    ScanHit(values, hit, rest + more);
    Assoc(REDACTION_MASK, left, Scan(values, tail + more));
  }

  /** Behind a mask the same tail is held back as without it. */
  lemma PeelMask(values: seq<string>, done: string, front: string, tail: string)
    requires MaskableSecrets(values)
    requires REDACTION_MASK + done == front + tail && |tail| == HeldBack(values, front + tail)
    ensures |front| >= MASK_LENGTH && front == REDACTION_MASK + front[MASK_LENGTH..]
    ensures done == front[MASK_LENGTH..] + tail && |tail| == HeldBack(values, done)
  {
    HeldBackPastStars(values, MASK_LENGTH, done);
    Peel(REDACTION_MASK, done, front, tail);
  }

  lemma {:induction false} ScanResumesBehindChar(
      values: seq<string>, text: string, more: string, front: string, tail: string)
    requires WellOrdered(values) && text != "" && FirstHit(values, text) == ""
    requires Scan(values, text) == front + tail && |tail| == HeldBack(values, front + tail)
    requires !Partial(values, front + tail)
    ensures Scan(values, text + more) == front + Scan(values, tail + more)
    decreases |text|, 0
  {
    var rest := text[1..];
    var done := Scan(values, rest);
    HeldBackPastChar(values, text[0], done);
    Peel([text[0]], done, front, tail);
    ScanResumes(values, rest, more, front[1..], tail);
    if FirstHit(values, text + more) != "" {
      NoHitYet(values, text, more);
    }
    ScanMiss(values, text + more);
    assert (text + more)[1..] == rest + more;
    Assoc([text[0]], front[1..], Scan(values, tail + more));
  }

  lemma {:induction false} ScanUnmaskedUntouched(values: seq<string>, text: string)
    requires !Occurs(REDACTION_MASK, Scan(values, text))
    ensures Scan(values, text) == text
    decreases |text|
  {
    var r := Scan(values, text);
    if text != "" {
      if FirstHit(values, text) != "" {
        FrontMask(Scan(values, text[|FirstHit(values, text)|..]));
      } else {
        assert r[1..] == Scan(values, text[1..]);
        if Occurs(REDACTION_MASK, r[1..]) {
          OccursLater(REDACTION_MASK, r, 1);
        }
        ScanUnmaskedUntouched(values, text[1..]);
      }
    }
  }

  /** `all`, emitted and held together, is the scan of everything read, and holding `h` of it is right. */
  ghost predicate InStep(values: seq<string>, text: string, all: string, h: nat) {
    all == Scan(values, text) && h == HeldBack(values, all) && Clean(values, all) && TailWithin(values, all, h)
  }

  lemma StepStaysInStep(values: seq<string>, text: string, emitted: string, held: string, chunk: string)
    requires WellOrdered(values)
    requires InStep(values, text, emitted + held, |held|)
    ensures var masked := Mask(values, held + chunk);
            InStep(values, text + chunk, emitted + masked, HeldBack(values, masked))
  {
    var masked := Mask(values, held + chunk);
    MaskIsScan(values, held + chunk);
    ScanResumes(values, text, chunk, emitted, held);
    StepKeepsGuard(values, emitted, held, chunk);
    StepTailIsHeldBack(values, emitted, masked);
  }

  lemma StepParts(values: seq<string>, held: string, chunk: string)
    requires AllNonEmpty(values) && values != []
    ensures var (out, tail) := RedactStep(values, held, chunk);
            && out + tail == Mask(values, held + chunk) && |tail| == HeldBack(values, Mask(values, held + chunk))
  {
  }

  lemma {:induction false} StreamIsScan(
      values: seq<string>, emitted: string, held: string, text: string, chunks: seq<string>)
    requires WellOrdered(values) && values != []
    requires InStep(values, text, emitted + held, |held|)
    ensures emitted + Stream(values, held, chunks) == Scan(values, text + Concat(chunks))
    decreases |chunks|, 1
  {
    if chunks == [] {
      assert text + "" == text;
    } else {
      var (out, tail) := RedactStep(values, held, chunks[0]);
      StepStaysInStep(values, text, emitted, held, chunks[0]);
      StepParts(values, held, chunks[0]);
      StreamIsScanAfter(values, emitted, out, tail, text, chunks);
    }
  }

  lemma {:induction false} StreamIsScanAfter(
      values: seq<string>, emitted: string, out: string, tail: string, text: string, chunks: seq<string>)
    requires WellOrdered(values) && values != [] && chunks != []
    requires InStep(values, text + chunks[0], emitted + (out + tail), |tail|)
    ensures emitted + (out + Stream(values, tail, chunks[1..])) == Scan(values, text + Concat(chunks))
    decreases |chunks|, 0
  {
    Assoc(emitted, out, tail);
    StreamIsScan(values, emitted + out, tail, text + chunks[0], chunks[1..]);
    Assoc(emitted, out, Stream(values, tail, chunks[1..]));
    Assoc(text, chunks[0], Concat(chunks[1..]));
  }

  lemma StepTailIsHeldBack(values: seq<string>, emitted: string, masked: string)
    requires TailWithin(values, emitted + masked, HeldBack(values, masked))
    ensures HeldBack(values, emitted + masked) == HeldBack(values, masked)
  {
    var n := HeldBack(values, masked);
    HeldBackIsLongest(values, masked);
    assert Suffix(emitted + masked, n) == Suffix(masked, n);
    HeldBackUnique(values, emitted + masked, n);
  }

  /**
   When no secret is in the way of one masked before it, cutting the text into chunks makes no difference: the
   stream lets out exactly the mask of the whole text.
   */
  lemma {:induction false} StreamingIsMaskingOnce(secrets: seq<string>, chunks: seq<string>)
    requires (forall s | s in secrets :: MaskSafe(s)) && AllOrderly(Prepare(secrets))
    ensures Streamed(secrets, chunks) == Mask(Prepare(secrets), Concat(chunks))
  {
    var values := Prepare(secrets);
    if values == [] {
      StreamWithoutSecrets("", chunks);
    } else {
      assert "" + "" == "" && "" + Concat(chunks) == Concat(chunks);
      forall v | v in values ensures !Occurs(v, "") { }
      StreamIsScan(values, "", "", "", chunks);
      MaskIsScan(values, Concat(chunks));
      assert "" + Streamed(secrets, chunks) == Streamed(secrets, chunks);
    }
  }

  lemma {:induction false} StreamWithoutSecrets(held: string, chunks: seq<string>)
    ensures Stream([], held, chunks) == Concat(chunks) + held
    decreases |chunks|
  {
    if chunks != [] {
      StreamWithoutSecrets(held, chunks[1..]);
    }
  }

  // ---------- Text without secrets ----------

  lemma CleanStep(values: seq<string>, held: string, chunk: string, later: string)
    requires AllNonEmpty(values) && values != [] && Clean(values, held + (chunk + later))
    ensures var (out, tail) := RedactStep(values, held, chunk);
            out + tail == held + chunk && Clean(values, tail + later)
  {
    Assoc(held, chunk, later);
    CleanParts(values, held + chunk, later);
    MaskOfCleanText(values, held + chunk);
    var (out, tail) := RedactStep(values, held, chunk);
    CleanBehind(values, out, tail, later, held + chunk);
  }

  lemma CleanBehind(values: seq<string>, front: string, middle: string, back: string, start: string)
    requires front + middle == start && Clean(values, start + back)
    ensures Clean(values, middle + back)
  {
    Assoc(front, middle, back);
    CleanParts(values, front, middle + back);
  }

  lemma {:induction false} StreamOfCleanText(values: seq<string>, held: string, chunks: seq<string>)
    requires AllNonEmpty(values) && values != [] && Clean(values, held + Concat(chunks))
    ensures Stream(values, held, chunks) == held + Concat(chunks)
    decreases |chunks|
  {
    if chunks == [] {
      assert held == held + "";
    } else {
      var later := Concat(chunks[1..]);
      CleanStep(values, held, chunks[0], later);
      var (out, tail) := RedactStep(values, held, chunks[0]);
      StreamOfCleanText(values, tail, chunks[1..]);
      Assoc(out, tail, later);
      Assoc(held, chunks[0], later);
    }
  }

  lemma CleanParts(values: seq<string>, front: string, back: string)
    requires Clean(values, front + back)
    ensures Clean(values, front) && Clean(values, back)
  {
    forall v | v in values && Occurs(v, front) ensures Occurs(v, front + back) {
      var i :| 0 <= i <= |front| && v <= front[i..];
      assert (front + back)[i..] == front[i..] + back;
    }
    forall v | v in values && Occurs(v, back) ensures Occurs(v, front + back) {
      assert (front + back)[|front|..] == back;
      OccursLater(v, front + back, |front|);
    }
  }

  /** A text in which no secret occurs comes out as it went in, for any secrets and any chunks. */
  lemma {:induction false} CleanTextPassesThrough(secrets: seq<string>, chunks: seq<string>)
    requires forall s | s in secrets && s != "" :: !Occurs(s, Concat(chunks))
    ensures Streamed(secrets, chunks) == Concat(chunks)
  {
    var values := Prepare(secrets);
    if values == [] {
      StreamWithoutSecrets("", chunks);
      assert Concat(chunks) + "" == Concat(chunks);
    } else {
      assert "" + Concat(chunks) == Concat(chunks);
      StreamOfCleanText(values, "", chunks);
    }
  }

  /** What is held after a chunk is empty or begins a secret, so it is shorter than the longest secret. */
  lemma HeldTailIsShort(values: seq<string>, held: string, chunk: string)
    requires AllNonEmpty(values) && LongestFirst(values) && values != []
    ensures var tail := RedactStep(values, held, chunk).1; |tail| < |values[0]| && (tail == "" || Partial(values, tail))
  {
    var masked := Mask(values, held + chunk);
    HeldBackIsLongest(values, masked);
    assert RedactStep(values, held, chunk).1 == Suffix(masked, HeldBack(values, masked));
  }

  // ---------- Exactly which secrets leak ----------

  lemma ReplaceWhole(value: string, rest: string)
    requires value != ""
    ensures Replace(value + rest, value) == REDACTION_MASK + Replace(rest, value)
  {
    assert (value + rest)[|value|..] == rest;
  }

  /** Text in which the value does not start before `n` keeps its first `n` characters. */
  lemma {:induction false} ReplaceFrom(text: string, value: string, n: nat)
    requires value != "" && n <= |text| && forall i | 0 <= i < n :: !(value <= text[i..])
    ensures Replace(text, value) == text[..n] + Replace(text[n..], value)
    decreases n
  {
    if n == 0 {
      assert text[0..] == text && text[..0] + Replace(text, value) == Replace(text, value);
    } else {
      assert text[0..] == text;
      var rest := text[1..];
      assert Replace(text, value) == [text[0]] + Replace(rest, value);
      hide Replace;
      forall i | 0 <= i < n - 1 ensures !(value <= rest[i..]) {
        assert rest[i..] == text[i + 1..];
      }
      ReplaceFrom(rest, value, n - 1);
      assert rest[n - 1..] == text[n..] && text[..n] == [text[0]] + rest[..n - 1];
      Assoc([text[0]], rest[..n - 1], Replace(text[n..], value));
    }
  }

  lemma NoFit(text: string, value: string)
    requires value != "" && |text| < |value|
    ensures Replace(text, value) == text
  {
    assert !Occurs(value, text);
    NoOccurrenceNoChange(text, value);
  }

  lemma PrepareOne(v: string)
    requires v != ""
    ensures Prepare([v]) == [v]
  {
    assert [v][..0] == [];
    assert NonEmptyDistinct([v]) == [v];
    assert SortByLength([v]) == [v];
  }

  lemma StreamOne(values: seq<string>, text: string)
    requires AllNonEmpty(values) && values != []
    ensures Stream(values, "", [text]) == Mask(values, text)
  {
    assert "" + text == text;
    var (out, tail) := RedactStep(values, "", text);
    assert Stream(values, "", [text]) == out + Stream(values, tail, []);
  }

  /** One secret, one chunk: what comes out is the text with the secret replaced. */
  lemma OneSecretOneChunk(s: string, text: string)
    requires s != ""
    ensures Streamed([s], [text]) == Replace(text, s)
  {
    PrepareOne(s);
    StreamOne([s], text);
    MaskUnfold([s], text);
  }

  lemma OccursAt(w: string, text: string, i: nat)
    requires i <= |text| && w <= text[i..]
    ensures Occurs(w, text)
  {
  }

  lemma LastStarOfTheMask(s: string)
    requires s != "" && s[0] == '*'
    ensures Occurs(s, REDACTION_MASK + s[1..])
  {
    assert REDACTION_MASK[MASK_LENGTH - 1] == '*';
    assert (REDACTION_MASK + s[1..])[MASK_LENGTH - 1..] == s;
  }

  lemma FirstStarOfTheMask(s: string)
    requires s != "" && s[|s| - 1] == '*'
    ensures s <= s[..|s| - 1] + REDACTION_MASK
  {
    assert REDACTION_MASK[0] == '*';
    assert s == (s[..|s| - 1] + REDACTION_MASK)[..|s|];
  }

  /** A star at the front: the last star of a mask begins the secret that follows the masked one. */
  lemma LeadingStarLeaks(s: string)
    requires s != "" && s[0] == '*'
    ensures Occurs(s, Streamed([s], [s + s[1..]]))
  {
    hide *;
    OneSecretOneChunk(s, s + s[1..]);
    ReplaceWhole(s, s[1..]);
    NoFit(s[1..], s);
    LastStarOfTheMask(s);
  }

  /** A star at the end: the first star of the mask completes the secret in front of the masked one. */
  lemma TrailingStarLeaks(s: string)
    requires s != "" && s[0] != '*' && s[|s| - 1] == '*'
    ensures Occurs(s, Streamed([s], [s[..|s| - 1] + s]))
  {
    hide *;
    var n := |s| - 1;
    var w := s[..n];
    var text := w + s;
    forall i | 0 <= i < n ensures !(s <= text[i..]) {
      FirstsMatch(s, text[i..]);
      LastsMatch(s, text, i);
    }
    OneSecretOneChunk(s, text);
    ReplaceFrom(text, s, n);
    assert text[n..] == s + "" && text[..n] == w;
    ReplaceWhole(s, "");
    NoFit("", s);
    assert REDACTION_MASK + "" == REDACTION_MASK;
    FirstStarOfTheMask(s);
    assert (w + REDACTION_MASK)[0..] == w + REDACTION_MASK;
    OccursAt(s, w + REDACTION_MASK, 0);
  }

  lemma LastsMatch(s: string, text: string, i: nat)
    requires s != "" && i <= |text|
    ensures s <= text[i..] ==> i + |s| <= |text| && s[|s| - 1] == text[i + |s| - 1]
  {
  }

  predicate StarsAt(text: string, i: nat) {
    i + MASK_LENGTH <= |text| && forall x | i <= x < i + MASK_LENGTH :: text[x] == '*'
  }

  lemma MaskIsStars(text: string, i: nat)
    requires i <= |text| && REDACTION_MASK <= text[i..]
    ensures StarsAt(text, i)
  {
    forall x | i <= x < i + MASK_LENGTH ensures text[x] == '*' {
      assert text[i..][x - i] == REDACTION_MASK[x - i];
    }
  }

  lemma StarsAreMask(text: string, i: nat)
    requires StarsAt(text, i)
    ensures text[i..i + MASK_LENGTH] == REDACTION_MASK
  {
  }

  /** The mask of a copy of `s` at `i` reaches the end of the front, or `s` itself has one at `i`. */
  lemma CopiedStars(s: string, text: string, n: nat, i: nat)
    requires i < n && StarsAt(s, n) && text == s[..n] + s && s <= text[i..]
    ensures StarsAt(s, i) || s[n - 1] == '*'
  {
    forall x | i + n <= x < i + n + MASK_LENGTH ensures text[x] == '*' {
      assert text[i..][x - i] == s[x - i];
    }
    if 2 * n - 1 < i + n + MASK_LENGTH {
      assert text[2 * n - 1] == s[n - 1];
    } else {
      forall x | i <= x < i + MASK_LENGTH ensures s[x] == '*' {
        assert text[n + x] == s[x];
      }
    }
  }

  /** `s` cannot start within its own front, up to its first mask, when it follows that front. */
  lemma NotInItsFront(s: string, n: nat, i: nat)
    requires i < n && StarsAt(s, n) && s[n - 1] != '*' && !StarsAt(s, i)
    ensures !(s <= (s[..n] + s)[i..])
  {
    if s <= (s[..n] + s)[i..] {
      CopiedStars(s, s[..n] + s, n, i);
    }
  }

  lemma {:induction false} FirstStars(s: string, from: nat) returns (n: nat)
    requires from <= |s| && exists i :: from <= i && StarsAt(s, i)
    ensures from <= n && StarsAt(s, n) && forall i | from <= i < n :: !StarsAt(s, i)
    decreases |s| - from
  {
    if StarsAt(s, from) {
      n := from;
    } else {
      n := FirstStars(s, from + 1);
    }
  }

  lemma StarBeforeStars(s: string, n: nat)
    requires 0 < n && StarsAt(s, n) && s[n - 1] == '*'
    ensures StarsAt(s, n - 1)
  {
  }

  lemma FirstMask(s: string) returns (n: nat)
    requires s != "" && s[0] != '*' && Occurs(REDACTION_MASK, s)
    ensures 0 < n && StarsAt(s, n) && s[n - 1] != '*' && forall i | 0 <= i < n :: !StarsAt(s, i)
  {
    var i :| 0 <= i <= |s| && REDACTION_MASK <= s[i..];
    MaskIsStars(s, i);
    n := FirstStars(s, 0);
    assert s[n] == '*';
    if s[n - 1] == '*' {
      StarBeforeStars(s, n);
    }
  }

  /** A mask inside: what is masked behind the front, and followed by the end, is the secret again. */
  lemma InnerMaskComesBack(s: string, n: nat)
    requires 0 < n && StarsAt(s, n) && s[n - 1] != '*' && forall i | 0 <= i < n :: !StarsAt(s, i)
    ensures Occurs(s, Streamed([s], [s[..n] + (s + s[n + MASK_LENGTH..])]))
  {
    var front, back := s[..n], s[n + MASK_LENGTH..];
    var text := front + (s + back);
    StarsAreMask(s, n);
    assert s == front + (REDACTION_MASK + back);
    forall i | 0 <= i < n ensures !(s <= text[i..]) {
      NotInItsFront(s, n, i);
      assert text[i..][..|s|] == (front + s)[i..][..|s|];
    }
    hide *;
    OneSecretOneChunk(s, text);
    ReplaceFrom(text, s, n);
    assert text[n..] == s + back && text[..n] == front;
    ReplaceWhole(s, back);
    NoFit(back, s);
    assert s[0..] == s;
    OccursAt(s, s, 0);
  }

  lemma LeaksBy(s: string, chunks: seq<string>)
    requires Occurs(s, Streamed([s], chunks))
    ensures exists other :: Occurs(s, Streamed([s], other))
  {
  }

  /** A lone secret can get through, for some text and some cut, if and only if the mask can have a part in it. */
  lemma LeaksExactlyUnlessMaskSafe(s: string)
    requires s != ""
    ensures (exists chunks :: Occurs(s, Streamed([s], chunks))) <==> !MaskSafe(s)
  {
    if MaskSafe(s) {
      forall chunks ensures !Occurs(s, Streamed([s], chunks)) {
        NoSecretInOutput([s], chunks);
        assert s in [s];
      }
    } else if s[0] == '*' {
      LeadingStarLeaks(s);
      LeaksBy(s, [s + s[1..]]);
    } else if s[|s| - 1] == '*' {
      TrailingStarLeaks(s);
      LeaksBy(s, [s[..|s| - 1] + s]);
    } else {
      var n := FirstMask(s);
      InnerMaskComesBack(s, n);
      LeaksBy(s, [s[..n] + (s + s[n + MASK_LENGTH..])]);
    }
  }

  /** For one: whatever a mask is put behind, its first star completes a secret that ends in one. */
  lemma StarredSecretLeaks(w: string)
    requires w != "" && w[0] != '*'
    ensures Occurs(w + ['*'], Streamed([w + ['*']], [w + (w + ['*'])]))
  {
    var s := w + ['*'];
    assert s[..|s| - 1] == w;
    TrailingStarLeaks(s);
  }

  // ---------- Exactly when the cut shows ----------

  lemma {:induction false} ReplaceIsNotEmpty(text: string, value: string)
    requires value != "" && text != ""
    ensures Replace(text, value) != ""
  {
  }

  lemma {:induction false} MaskIsNotEmpty(values: seq<string>, text: string)
    requires AllNonEmpty(values) && text != ""
    ensures Mask(values, text) != ""
  {
    if values != [] {
      MaskUnfold(values, text);
      ReplaceIsNotEmpty(text, values[0]);
      MaskIsNotEmpty(values[1..], Replace(text, values[0]));
    }
  }

  lemma NotInTheMask(v: string)
    requires v != "" && MaskSafe(v)
    ensures !Occurs(v, REDACTION_MASK)
  {
    forall i | 0 <= i <= MASK_LENGTH ensures !(v <= REDACTION_MASK[i..]) {
      FirstsMatch(v, REDACTION_MASK[i..]);
    }
  }

  lemma {:induction false} MaskOfMask(values: seq<string>)
    requires MaskableSecrets(values)
    ensures Mask(values, REDACTION_MASK) == REDACTION_MASK
  {
    forall v | v in values ensures !Occurs(v, REDACTION_MASK) {
      assert MaskSafe(v);
      NotInTheMask(v);
    }
    MaskOfCleanText(values, REDACTION_MASK);
  }

  lemma LongerDoesNotFit(h: string, v: string)
    requires |h| >= |v| && h != v
    ensures !Occurs(h, v)
  {
    assert v[0..] == v;
    forall i | 0 <= i <= |v| ensures !(h <= v[i..]) {
    }
  }

  lemma OthersAreReady(values: seq<string>)
    requires MaskableSecrets(values) && LongestFirst(values) && Distinct(values) && values != []
    ensures MaskableSecrets(values[1..]) && LongestFirst(values[1..]) && Distinct(values[1..])
  {
    forall v | v in values[1..] ensures MaskSafe(v) {
      assert v in values;
    }
  }

  /** A secret on its own is masked whole: what is masked before it does not fit in. */
  lemma {:induction false} MaskOfMember(values: seq<string>, v: string)
    requires MaskableSecrets(values) && LongestFirst(values) && Distinct(values) && v in values
    ensures Mask(values, v) == REDACTION_MASK
  {
    MaskUnfold(values, v);
    OthersAreReady(values);
    if values[0] == v {
      ReplaceWhole(v, "");
      NoFit("", v);
      assert v + "" == v && REDACTION_MASK + "" == REDACTION_MASK;
      MaskOfMask(values[1..]);
    } else {
      var i :| 1 <= i < |values| && values[i] == v;
      assert values[1..][i - 1] == v;
      LongerDoesNotFit(values[0], v);
      NoOccurrenceNoChange(v, values[0]);
      MaskOfMember(values[1..], v);
    }
  }

  lemma StreamLast(values: seq<string>, held: string, chunk: string)
    requires AllNonEmpty(values) && values != []
    ensures Stream(values, held, [chunk]) == Mask(values, held + chunk)
  {
    StepParts(values, held, chunk);
    hide Mask, HeldBack, RedactStep;
    var (out, tail) := RedactStep(values, held, chunk);
    assert Stream(values, held, [chunk]) == out + Stream(values, tail, [chunk][1..]);
  }

  lemma StreamTwo(values: seq<string>, a: string, b: string)
    requires AllNonEmpty(values) && values != []
    ensures var (out, tail) := RedactStep(values, "", a);
            Stream(values, "", [a, b]) == out + Mask(values, tail + b)
  {
    var (out, tail) := RedactStep(values, "", a);
    assert [a, b][1..] == [b];
    StreamLast(values, tail, b);
  }

  /** No mask is held back, not even a part of one. */
  lemma MasksAreEmitted(values: seq<string>, masked: string)
    requires MaskableSecrets(values) && Occurs(REDACTION_MASK, masked)
    ensures HeldBack(values, masked) + MASK_LENGTH <= |masked|
  {
    var n := HeldBack(values, masked);
    HeldBackIsLongest(values, masked);
    if n > 0 {
      var tail := Suffix(masked, n);
      var v :| v in values && |tail| < |v| && tail <= v;
      assert MaskSafe(v);
      FirstsMatch(tail, v);
      PartOf(tail, "", v);
      assert "" + tail == tail;
      TailBehindMask(masked, n);
    }
  }

  lemma OccursBehind(w: string, text: string, start: nat, j: nat)
    requires start <= j <= |text| && w <= text[j..]
    ensures Occurs(w, text[start..])
  {
    assert text[start..][j - start..] == text[j..];
  }

  lemma TailBehindMask(masked: string, n: nat)
    requires 0 < n <= |masked| && Occurs(REDACTION_MASK, masked)
    requires Suffix(masked, n)[0] != '*' && !Occurs(REDACTION_MASK, Suffix(masked, n))
    ensures n + MASK_LENGTH <= |masked|
  {
    var tail, start := Suffix(masked, n), |masked| - n;
    var j :| 0 <= j <= |masked| && REDACTION_MASK <= masked[j..];
    MaskIsStars(masked, j);
    if start <= j {
      OccursBehind(REDACTION_MASK, masked, start, j);
    } else {
      assert tail[0] == masked[start];
    }
  }

  /** A secret found in a part of the text leaves a mask in what that part is masked as. */
  lemma FoundIsMasked(values: seq<string>, text: string, v: string)
    requires MaskableSecrets(values) && v in values && Occurs(v, text)
    ensures Occurs(REDACTION_MASK, Mask(values, text))
  {
    if !Occurs(REDACTION_MASK, Mask(values, text)) {
      UnmaskedIsUntouched(values, text);
      assert MaskSafe(v);
      MaskAddsNothing(values, text, v);
    }
  }

  /** A secret cut behind another one inside it: two masks, or a mask and a rest, where one mask is due. */
  lemma InnerSecretShowsTheCut(secrets: seq<string>, u: string, n: nat, v: string)
    requires (forall s | s in secrets :: MaskSafe(s)) && u in secrets && v in secrets
    requires v != "" && n < |u| && Occurs(v, u[..n])
    ensures Streamed(secrets, [u[..n], u[n..]]) != Streamed(secrets, [u])
  {
    var values := Prepare(secrets);
    PreparedAreReady(secrets);
    hide Prepare;
    var a, b := u[..n], u[n..];
    StreamOne(values, u);
    MaskOfMember(values, u);
    StreamTwo(values, a, b);
    FoundIsMasked(values, a, v);
    MasksAreEmitted(values, Mask(values, a));
    var (out, tail) := RedactStep(values, "", a);
    assert "" + a == a;
    MaskIsNotEmpty(values, tail + b);
    assert |Streamed(secrets, [a, b])| == |out| + |Mask(values, tail + b)|;
  }

  lemma PreparedAreReady(secrets: seq<string>)
    requires forall s | s in secrets :: MaskSafe(s)
    ensures MaskableSecrets(Prepare(secrets)) && LongestFirst(Prepare(secrets)) && Distinct(Prepare(secrets))
  {
    forall v | v in Prepare(secrets) ensures MaskSafe(v) {
      assert v in secrets;
    }
  }

  /** For one: if one secret begins another, cutting behind it shows. */
  lemma {:induction false} NestedSecretsShowTheCut(u: string, rest: string)
    requires u != "" && rest != "" && MaskSafe(u) && MaskSafe(u + rest)
    ensures Streamed([u, u + rest], [u, rest]) != Streamed([u, u + rest], [u + rest])
  {
    var whole := u + rest;
    assert whole[..|u|] == u && whole[|u|..] == rest && u[0..] == u;
    OccursAt(u, u, 0);
    InnerSecretShowsTheCut([u, whole], whole, |u|, u);
  }

  lemma OthersAreMaskable(values: seq<string>)
    requires MaskableSecrets(values) && values != []
    ensures MaskableSecrets(values[1..])
  {
    forall v | v in values[1..] ensures MaskSafe(v) {
      assert v in values;
    }
  }

  /** If nothing starts the text, its first character stays. */
  lemma {:induction false} FirstStays(values: seq<string>, text: string)
    requires MaskableSecrets(values) && text != "" && forall v | v in values :: !(v <= text)
    ensures Mask(values, text) != "" && Mask(values, text)[0] == text[0]
  {
    if values != [] {
      MaskUnfold(values, text);
      var next := Replace(text, values[0]);
      assert values[0] in values;
      OthersAreMaskable(values);
      forall v | v in values[1..] ensures !(v <= next) {
        NotBefore(values, text, v);
      }
      FirstStays(values[1..], next);
    }
  }

  lemma NotBefore(values: seq<string>, text: string, v: string)
    requires MaskableSecrets(values) && values != [] && v in values && !(v <= text)
    ensures MaskSafe(v) && !(v <= Replace(text, values[0]))
  {
    assert MaskSafe(v);
    if v <= Replace(text, values[0]) {
      SettledPrefixKept(text, values[0], v);
    }
  }

  lemma TailOfPrefix(v: string, r: string)
    ensures v != "" && v <= r ==> r != "" && v[1..] <= r[1..]
  {
  }

  /** Masking something that starts within `v` leaves no `v` at the front. */
  lemma {:induction false} Spoiled(text: string, h: string, v: string, j: nat)
    requires h != "" && Settled(v) && j < |v| && j <= |text| && h <= text[j..]
    ensures !(v <= Replace(text, h))
    decreases j
  {
    if h <= text {
      if v <= Replace(text, h) {
        StartsNoMask(v, Replace(text[|h|..], h));
      }
    } else {
      assert text[0..] == text;
      SettledTail(v, 1);
      assert text[1..][j - 1..] == text[j..];
      Spoiled(text[1..], h, v[1..], j - 1);
      assert Replace(text, h)[1..] == Replace(text[1..], h);
      TailOfPrefix(v, Replace(text, h));
    }
  }

  /**
   The text starts with `v` and ends with `u`, which begins within it and is masked before. By the time `v` is
   looked for, it is no longer there, so the first character stays.
   */
  lemma {:induction false} LaterLosesItsPlace(values: seq<string>, a: nat, text: string, v: string, k: nat)
    requires MaskableSecrets(values) && LongestFirst(values) && Settled(v)
    requires a < |values| && 0 < k < |v| && |text| == k + |values[a]| && values[a] == text[k..]
    requires forall i | 0 <= i <= a :: values[i] != v
    requires forall w | w in values && w <= text :: w == v
    ensures Mask(values, text) != "" && Mask(values, text)[0] == text[0]
    decreases |values|
  {
    var h := values[0];
    assert h in values && h != v;
    MaskUnfold(values, text);
    OthersAreMaskable(values);
    var others, next := values[1..], Replace(text, h);
    if Occurs(h, text) {
      var j :| 0 <= j <= |text| && h <= text[j..];
      assert |h| >= |values[a]|;
      Spoiled(text, h, v, j);
      forall w | w in others ensures !(w <= next) {
        StaysOut(values, text, v, w);
      }
      FirstStays(others, next);
    } else {
      NoOccurrenceNoChange(text, h);
      if a == 0 {
        OccursAt(h, text, k);
      } else {
        forall i | 0 <= i <= a - 1 ensures others[i] != v {
          assert others[i] == values[i + 1];
        }
        forall w | w in others && w <= text ensures w == v {
          assert w in values;
        }
        LaterLosesItsPlace(others, a - 1, text, v, k);
      }
    }
  }

  lemma StaysOut(values: seq<string>, text: string, v: string, w: string)
    requires MaskableSecrets(values) && values != [] && w in values && (w <= text ==> w == v)
    requires !(v <= Replace(text, values[0]))
    ensures !(w <= Replace(text, values[0]))
  {
    if !(w <= text) {
      NotBefore(values, text, w);
    }
  }

  ghost predicate AllKeepOut(values: seq<string>) {
    forall i, j {:trigger KeepsOut(values[i], values[j])} | 0 <= i < j < |values| :: KeepsOut(values[i], values[j])
  }

  lemma StartsNone(values: seq<string>, i: nat, j: nat)
    requires LongestFirst(values) && AllKeepOut(values) && i < |values| && j < |values| && |values[i]| > |values[j]|
    ensures !(values[j] <= values[i])
  {
    assert i < j;
    assert KeepsOut(values[i], values[j]);
    assert values[i][0..] == values[i];
  }

  /** If none holds another short of its end, at most one can start a text. */
  lemma OnlyOneStarts(values: seq<string>, text: string, v: string, w: string)
    requires LongestFirst(values) && AllNonEmpty(values) && AllKeepOut(values)
    requires v in values && w in values && v <= text && w <= text
    ensures v == w
  {
    SameStart(v, w, text);
    var i :| 0 <= i < |values| && values[i] == v;
    var j :| 0 <= j < |values| && values[j] == w;
    if |v| > |w| {
      StartsNone(values, i, j);
    } else if |w| > |v| {
      StartsNone(values, j, i);
    }
  }

  /** A secret whose end begins one masked before it: cut behind it, it is masked; in one piece, it is not. */
  lemma OverlapShowsTheCut(secrets: seq<string>, a: nat, b: nat, k: nat)
    requires forall s | s in secrets :: MaskSafe(s)
    requires AllKeepOut(Prepare(secrets)) && a < b < |Prepare(secrets)|
    requires 0 < k < |Prepare(secrets)[b]| && Prepare(secrets)[b][k..] <= Prepare(secrets)[a]
    ensures exists front, back :: Streamed(secrets, [front, back]) != Streamed(secrets, [front + back])
  {
    var values := Prepare(secrets);
    PreparedAreReady(secrets);
    var u, v := values[a], values[b];
    var back := u[|v| - k..];
    OverlappingText(u, v, k);
    forall w | w in values && w <= v + back ensures w == v {
      OnlyOneStarts(values, v + back, v, w);
    }
    assert MaskSafe(v);
    FirstsMatch(v, v + back);
    hide *;
    StreamOne(values, v + back);
    LaterLosesItsPlace(values, a, v + back, v, k);
    StartsWithMask(values, v, back);
    StreamedIs(secrets, [v, back]);
    StreamedIs(secrets, [v + back]);
    CutByTwo(secrets, v, back);
  }

  lemma StreamedIs(secrets: seq<string>, chunks: seq<string>)
    ensures Streamed(secrets, chunks) == Stream(Prepare(secrets), "", chunks)
  {
  }

  lemma OverlappingText(u: string, v: string, k: nat)
    requires 0 < k < |v| <= |u| && v[k..] <= u
    ensures var text := v + u[|v| - k..];
            |text| == k + |u| && text[k..] == u && v <= text
  {
    assert u == v[k..] + u[|v| - k..];
  }

  lemma StartsWithMask(values: seq<string>, v: string, back: string)
    requires MaskableSecrets(values) && LongestFirst(values) && Distinct(values) && v in values
    ensures Stream(values, "", [v, back]) != "" && Stream(values, "", [v, back])[0] == '*'
  {
    StreamTwo(values, v, back);
    FirstStepOfMember(values, v);
    hide *;
    assert Stream(values, "", [v, back]) == REDACTION_MASK + Mask(values, "" + back);
    FirstStar(Mask(values, "" + back));
  }

  lemma FirstStar(rest: string)
    ensures (REDACTION_MASK + rest)[0] == '*'
  {
    assert REDACTION_MASK[0] == '*';
  }

  lemma FirstStepOfMember(values: seq<string>, v: string)
    requires MaskableSecrets(values) && LongestFirst(values) && Distinct(values) && v in values
    ensures RedactStep(values, "", v) == (REDACTION_MASK, "")
  {
    MaskOfMember(values, v);
    FrontMask("");
    assert REDACTION_MASK + "" == REDACTION_MASK && "" + v == v;
    MasksAreEmitted(values, REDACTION_MASK);
    hide Mask, HeldBack;
    assert REDACTION_MASK[..MASK_LENGTH] == REDACTION_MASK && REDACTION_MASK[MASK_LENGTH..] == "";
  }

  lemma CutByTwo(secrets: seq<string>, front: string, back: string)
    requires Streamed(secrets, [front, back]) != Streamed(secrets, [front + back])
    ensures exists a, b :: Streamed(secrets, [a, b]) != Streamed(secrets, [a + b])
  {
  }

  lemma InnerPairShowsTheCut(secrets: seq<string>, u: string, v: string, i: nat)
    requires (forall s | s in secrets :: MaskSafe(s)) && u in secrets && v in secrets && v != ""
    requires i + |v| < |u| && v <= u[i..]
    ensures exists front, back :: Streamed(secrets, [front, back]) != Streamed(secrets, [front + back])
  {
    hide *;
    var n := i + |v|;
    assert u[..n][i..] == v;
    OccursAt(v, u[..n], i);
    InnerSecretShowsTheCut(secrets, u, n, v);
    assert u[..n] + u[n..] == u;
    CutByTwo(secrets, u[..n], u[n..]);
  }

  /** A pair in the wrong relation always shows, whatever the other secrets: two cuts of one text differ. */
  lemma DisorderShowsTheCut(secrets: seq<string>)
    requires (forall s | s in secrets :: MaskSafe(s)) && !AllOrderly(Prepare(secrets))
    ensures exists front, back :: Streamed(secrets, [front, back]) != Streamed(secrets, [front + back])
  {
    var values := Prepare(secrets);
    hide Prepare, Streamed, MaskSafe;
    if AllKeepOut(values) {
      var a, b :| 0 <= a < b < |values| && !Orderly(values[a], values[b]);
      assert KeepsOut(values[a], values[b]);
      var k :| 0 < k < |values[b]| && values[b][k..] <= values[a];
      OverlapShowsTheCut(secrets, a, b, k);
    } else {
      var a, b :| 0 <= a < b < |values| && !KeepsOut(values[a], values[b]);
      var i :| 0 <= i && i + |values[b]| < |values[a]| && values[b] <= values[a][i..];
      MembersAreSecrets(secrets, values[a]);
      MembersAreSecrets(secrets, values[b]);
      InnerPairShowsTheCut(secrets, values[a], values[b], i);
    }
  }

  lemma MembersAreSecrets(secrets: seq<string>, v: string)
    requires v in Prepare(secrets)
    ensures v in secrets && v != ""
  {
  }

  lemma ConcatOne(chunk: string)
    ensures Concat([chunk]) == chunk
  {
    assert [chunk][1..] == [] && chunk + "" == chunk;
  }

  lemma TwoCuts(secrets: seq<string>, front: string, back: string)
    requires Streamed(secrets, [front, back]) != Streamed(secrets, [front + back])
    ensures exists chunks :: Streamed(secrets, chunks) != Mask(Prepare(secrets), Concat(chunks))
  {
    hide Streamed, Prepare, Mask;
    ConcatOne(back);
    ConcatOne(front + back);
    assert [front, back][1..] == [back];
  }

  /** For every set of mask-safe secrets: the cut makes no difference if and only if all pairs are orderly. */
  lemma CutMakesNoDifferenceExactly(secrets: seq<string>)
    requires forall s | s in secrets :: MaskSafe(s)
    ensures (forall chunks :: Streamed(secrets, chunks) == Mask(Prepare(secrets), Concat(chunks)))
            <==> AllOrderly(Prepare(secrets))
  {
    if AllOrderly(Prepare(secrets)) {
      forall chunks ensures Streamed(secrets, chunks) == Mask(Prepare(secrets), Concat(chunks)) {
        StreamingIsMaskingOnce(secrets, chunks);
      }
    } else {
      DisorderShowsTheCut(secrets);
      hide *;
      var front, back :| Streamed(secrets, [front, back]) != Streamed(secrets, [front + back]);
      TwoCuts(secrets, front, back);
    }
  }
}
