/** packet.c, check_sum and the loop of packetSend over cs_arr: the Internet checksum of
    section 1 of RFC 1071, summed with the deferred carries of its section 2 and written
    into the packet for several ranges one after the other. */
module Checksum {

  const MAX_PKT_SIZE := 9000

  type byte = x: int | 0 <= x < 0x100
  type uint16 = x: int | 0 <= x < 0x1_0000
  type uint32 = x: int | 0 <= x < 0x1_0000_0000

  function Word(hi: byte, lo: byte): uint16 {
    hi * 0x100 + lo
  }

  // ---------- The reference: words added with end-around carry ----------

  /** One's complement addition of two words. */
  function OnesAdd(a: uint16, b: uint16): uint16 {
    if a + b < 0x1_0000 then a + b else a + b - 0xFFFF
  }

  /** The one's complement sum of the `n` words that start at `start`. */
  function OnesSum(b: seq<byte>, start: nat, n: nat): uint16
    requires start + 2 * n <= |b|
  {
    if n == 0 then 0
    else OnesAdd(OnesSum(b, start, n - 1), Word(b[start + 2 * n - 2], b[start + 2 * n - 1]))
  }

  /** The sum of section 1 of RFC 1071 over the bytes `start..end`, both included: an odd last
      byte is paired with zero. */
  function RangeSum(b: seq<byte>, start: nat, end: nat): uint16
    requires start <= end < |b|
  {
    var n := (end - start + 1) / 2;
    if (end - start) % 2 == 1 then OnesSum(b, start, n)
    else OnesAdd(OnesSum(b, start, n), Word(b[end], 0))
  }

  /** The receiver's check of section 1 of RFC 1071: the sum is all one bits. */
  predicate Checks(b: seq<byte>, start: nat, end: nat)
    requires start <= end < |b|
  {
    RangeSum(b, start, end) == 0xFFFF
  }

  // ---------- Deferred carries ----------

  function WordSum(b: seq<byte>, start: nat, n: nat): (s: nat)
    requires start + 2 * n <= |b|
    ensures s <= 0xFFFF * n
  {
    if n == 0 then 0
    else WordSum(b, start, n - 1) + Word(b[start + 2 * n - 2], b[start + 2 * n - 1])
  }

  /** The representative of a sum modulo 0xFFFF: zero only for zero. */
  function Canon(x: nat): uint16 {
    if x < 0x1_0000 then x else Canon(x - 0xFFFF)
  }

  function Fold(x: nat): nat {
    x % 0x1_0000 + x / 0x1_0000
  }

  lemma {:induction false} CanonShift(x: nat, q: nat)
    requires x > 0
    ensures Canon(x + 0xFFFF * q) == Canon(x)
    decreases q
  {
    if q > 0 {
      CanonShift(x, q - 1);
      assert x + 0xFFFF * q - 0xFFFF == x + 0xFFFF * (q - 1);
    }
  }

  lemma {:induction false} CanonAdd(x: nat, w: uint16)
    ensures Canon(x + w) == OnesAdd(Canon(x), w)
    decreases x
  {
    if x >= 0x1_0000 {
      CanonAdd(x - 0xFFFF, w);
    }
  }

  lemma CanonFold(x: nat)
    ensures Canon(Fold(x)) == Canon(x)
    ensures x >= 0x1_0000 ==> Fold(x) < x
  {
    if x > 0 {
      CanonShift(Fold(x), x / 0x1_0000);
      assert x == Fold(x) + 0xFFFF * (x / 0x1_0000);
    }
  }

  /** The sum keeps its value modulo 0xFFFF, and is zero only when all words are. */
  lemma {:induction false} CanonMod(x: nat)
    ensures Canon(x) % 0xFFFF == x % 0xFFFF
    ensures Canon(x) == 0 <==> x == 0
    ensures exists q: nat :: x == Canon(x) + 0xFFFF * q
    decreases x
  {
    if x >= 0x1_0000 {
      CanonMod(x - 0xFFFF);
      var q: nat :| x - 0xFFFF == Canon(x - 0xFFFF) + 0xFFFF * q;
      assert x == Canon(x) + 0xFFFF * (q + 1);
    } else {
      assert x == Canon(x) + 0xFFFF * 0;
    }
  }

  /** Adding everything first and folding afterwards is adding word by word with end-around
      carry. */
  lemma {:induction false} DeferredCarry(b: seq<byte>, start: nat, n: nat)
    requires start + 2 * n <= |b|
    ensures OnesSum(b, start, n) == Canon(WordSum(b, start, n))
  {
    if n > 0 {
      DeferredCarry(b, start, n - 1);
      CanonAdd(WordSum(b, start, n - 1), Word(b[start + 2 * n - 2], b[start + 2 * n - 1]));
    }
  }

  /** For a 32-bit sum the fold loop runs at most twice. */
  lemma TwoFolds(x: uint32)
    ensures Fold(Fold(x)) < 0x1_0000
    ensures Fold(Fold(x)) == Canon(x)
  {
    CanonFold(x);
    CanonFold(Fold(x));
  }

  // ---------- check_sum ----------

  datatype Field = Field(pos: nat, start: uint32, end: uint32)

  predicate EvenRange(start: nat, end: nat) {
    start <= end && (end - start) % 2 == 1
  }

  /** The last byte check_sum reads: for an odd number of bytes it reads two more. */
  predicate RangeInBuffer(start: nat, end: nat, size: nat) {
    start <= end ==> if EvenRange(start, end) then end < size else end + 2 < size
  }

  /** What the program adds up. In an odd range the loop pairs the last byte with the byte
      behind the range, and the padding line then adds one more byte. */
  function RawSum(b: seq<byte>, start: nat, end: nat): (s: nat)
    requires start <= end && RangeInBuffer(start, end, |b|)
    ensures s <= 0xFFFF * ((end - start) / 2 + 2)
  {
    if EvenRange(start, end) then WordSum(b, start, (end - start + 1) / 2)
    else WordSum(b, start, (end - start) / 2 + 1) + Word(b[end + 2], 0)
  }

  /** The value check_sum returns; the error return for a reversed range is the number 0. */
  function CheckSumValue(b: seq<byte>, start: nat, end: nat): uint16
    requires RangeInBuffer(start, end, |b|)
  {
    if start > end then 0 else 0xFFFF - Canon(RawSum(b, start, end))
  }

  /** The first loop of check_sum and its padding line; the accumulator fits 32 bits. */
  method SumWords(pkt: array<byte>, start: uint32, size: uint32) returns (csum: uint32)
    requires pkt.Length <= MAX_PKT_SIZE
    requires RangeInBuffer(start, start + size, pkt.Length)
    ensures csum == RawSum(pkt[..], start, start + size)
  {
    csum := 0;
    var i: uint32 := 0;
    ghost var words := 0;
    while i <= size
      invariant i == 2 * words <= size + 2
      invariant start + 2 * words <= pkt.Length
      invariant csum == WordSum(pkt[..], start, words)
    {
      csum := csum + Word(pkt[start + i], pkt[start + i + 1]);
      i := i + 2;
      words := words + 1;
    }
    if size % 2 == 0 {
      csum := csum + Word(pkt[start + i], 0);
    }
  }

  /** The second loop of check_sum; it runs at most twice. */
  method FoldCarries(sum: uint32) returns (csum: uint16)
    ensures csum == Canon(sum)
  {
    var acc: uint32 := sum;
    ghost var folds := 0;
    TwoFolds(sum);
    while acc >= 0x1_0000
      invariant folds <= 2
      invariant acc == if folds == 0 then sum else if folds == 1 then Fold(sum) else Fold(Fold(sum))
      invariant Canon(acc) == Canon(sum)
      decreases acc
    {
      CanonFold(acc);
      acc := acc % 0x1_0000 + acc / 0x1_0000;
      folds := folds + 1;
    }
    csum := acc;
  }

  /** packet.c check_sum. For an even range it is the complement of the reference sum. */
  method CheckSum(pkt: array<byte>, start: uint32, end: uint32) returns (ret: uint16)
    requires pkt.Length <= MAX_PKT_SIZE
    requires RangeInBuffer(start, end, pkt.Length)
    ensures ret == CheckSumValue(pkt[..], start, end)
    ensures EvenRange(start, end) ==> ret == 0xFFFF - RangeSum(pkt[..], start, end)
  {
    if start > end {
      return 0;
    }
    var sum := SumWords(pkt, start, end - start);
    var csum := FoldCarries(sum);
    ret := 0xFFFF - csum;
    if EvenRange(start, end) {
      DeferredCarry(pkt[..], start, (end - start + 1) / 2);
    }
  }

  // ---------- Writing the fields ----------

  function SetWord(b: seq<byte>, pos: nat, w: uint16): (r: seq<byte>)
    requires pos + 1 < |b|
    ensures |r| == |b|
    ensures r[pos] == w / 0x100 && r[pos + 1] == w % 0x100
    ensures forall k :: 0 <= k < |b| && k != pos && k != pos + 1 ==> r[k] == b[k]
  {
    b[pos := w / 0x100][pos + 1 := w % 0x100]
  }

  predicate FieldInBuffer(f: Field, size: nat) {
    f.pos + 1 < size && RangeInBuffer(f.start, f.end, size)
  }

  predicate FieldsInBuffer(fs: seq<Field>, size: nat) {
    forall i :: 0 <= i < |fs| ==> FieldInBuffer(fs[i], size)
  }

  /** The buffer after the checksum of `f` has been computed and stored. */
  function Stored(b: seq<byte>, f: Field): (r: seq<byte>)
    requires FieldInBuffer(f, |b|)
    ensures |r| == |b|
  {
    SetWord(b, f.pos, CheckSumValue(b, f.start, f.end))
  }

  /** The buffer after the first `n` checksums, in order. */
  function Fill(b: seq<byte>, fs: seq<Field>, n: nat): (r: seq<byte>)
    requires n <= |fs| && FieldsInBuffer(fs, |b|)
    ensures |r| == |b|
  {
    if n == 0 then b else Stored(Fill(b, fs, n - 1), fs[n - 1])
  }

  predicate InField(f: Field, k: nat) {
    k == f.pos || k == f.pos + 1
  }

  /** Bytes outside the fields written so far are as they were. */
  lemma {:induction false} FillFrame(b: seq<byte>, fs: seq<Field>, m: nat, n: nat, k: nat)
    requires m <= n <= |fs| && FieldsInBuffer(fs, |b|) && k < |b|
    requires forall i :: m <= i < n ==> !InField(fs[i], k)
    ensures Fill(b, fs, n)[k] == Fill(b, fs, m)[k]
    decreases n - m
  {
    if m < n {
      FillFrame(b, fs, m, n - 1, k);
    }
  }

  lemma {:induction false} WordSumFrame(a: seq<byte>, b: seq<byte>, start: nat, n: nat)
    requires |a| == |b| && start + 2 * n <= |a|
    requires forall k :: start <= k < start + 2 * n ==> a[k] == b[k]
    ensures WordSum(a, start, n) == WordSum(b, start, n)
  {
    if n > 0 {
      WordSumFrame(a, b, start, n - 1);
    }
  }

  /** Changing the word at an even offset changes the sum by the difference of the words. */
  lemma {:induction false} WordSumSet(b: seq<byte>, start: nat, n: nat, i: nat, w: uint16)
    requires start + 2 * n <= |b| && i < n
    ensures WordSum(SetWord(b, start + 2 * i, w), start, n) ==
            WordSum(b, start, n) - Word(b[start + 2 * i], b[start + 2 * i + 1]) + w
  {
    var b' := SetWord(b, start + 2 * i, w);
    if i == n - 1 {
      WordSumFrame(b, b', start, n - 1);
    } else {
      WordSumSet(b, start, n - 1, i, w);
    }
  }

  /** The field lies inside its own range, at an even offset, and the range has an even size. */
  predicate Own(f: Field) {
    && EvenRange(f.start, f.end)
    && f.start <= f.pos && f.pos + 1 <= f.end
    && (f.pos - f.start) % 2 == 0
  }

  /** Number of words in the range, and the index of the field among them. */
  function Words(f: Field): (n: nat)
    requires Own(f)
    ensures f.start + 2 * n == f.end + 1
  {
    (f.end - f.start + 1) / 2
  }

  function WordIndex(f: Field): (i: nat)
    requires Own(f)
    ensures f.start + 2 * i == f.pos && i < Words(f)
  {
    (f.pos - f.start) / 2
  }

  /** What the field holds. */
  function Held(b: seq<byte>, f: Field): uint16
    requires FieldInBuffer(f, |b|)
  {
    Word(b[f.pos], b[f.pos + 1])
  }

  lemma HeldZero(b: seq<byte>, f: Field)
    requires FieldInBuffer(f, |b|) && b[f.pos] == 0 && b[f.pos + 1] == 0
    ensures Held(b, f) == 0
  {
  }

  function FieldSum(b: seq<byte>, f: Field): nat
    requires Own(f) && FieldInBuffer(f, |b|)
  {
    WordSum(b, f.start, Words(f))
  }

  lemma SplitSum(b: seq<byte>, f: Field, w: uint16)
    requires Own(f) && FieldInBuffer(f, |b|)
    ensures FieldSum(SetWord(b, f.pos, w), f) == FieldSum(b, f) - Held(b, f) + w
  {
    WordSumSet(b, f.start, Words(f), WordIndex(f), w);
  }

  /** What the range adds up to besides the field. */
  function Others(b: seq<byte>, f: Field): (s: nat)
    requires Own(f) && FieldInBuffer(f, |b|)
  {
    SplitSum(b, f, 0);
    FieldSum(b, f) - Held(b, f)
  }

  lemma ChecksByWords(b: seq<byte>, f: Field)
    requires Own(f) && FieldInBuffer(f, |b|)
    ensures Checks(b, f.start, f.end) <==> Canon(FieldSum(b, f)) == 0xFFFF
  {
    DeferredCarry(b, f.start, Words(f));
  }

  /** The field is ready for its checksum: it holds zero, or it holds 0xFFFF and something
      else in the range is not zero. */
  predicate Ready(b: seq<byte>, f: Field)
    requires Own(f) && FieldInBuffer(f, |b|)
  {
    Held(b, f) == 0 || (Held(b, f) == 0xFFFF && Others(b, f) != 0)
  }

  lemma StoredSum(b: seq<byte>, f: Field)
    requires Own(f) && FieldInBuffer(f, |b|)
    ensures FieldSum(Stored(b, f), f) == Others(b, f) + (0xFFFF - Canon(Others(b, f) + Held(b, f)))
  {
    SplitSum(b, f, CheckSumValue(b, f.start, f.end));
    FieldValue(b, f);
  }

  lemma FieldValue(b: seq<byte>, f: Field)
    requires Own(f) && FieldInBuffer(f, |b|)
    ensures CheckSumValue(b, f.start, f.end) == 0xFFFF - Canon(Others(b, f) + Held(b, f))
  {
  }

  /** Storing one checksum makes its range check exactly when the field was ready. */
  lemma StoredChecks(b: seq<byte>, f: Field)
    requires Own(f) && FieldInBuffer(f, |b|)
    ensures Checks(Stored(b, f), f.start, f.end) <==> Ready(b, f)
  {
    StoredSum(b, f);
    ChecksByWords(Stored(b, f), f);
    ComplementChecks(Others(b, f), Held(b, f));
  }

  lemma ComplementChecks(rest: nat, held: uint16)
    ensures Canon(rest + (0xFFFF - Canon(rest + held))) == 0xFFFF
            <==> held == 0 || (held == 0xFFFF && rest != 0)
  {
    CanonAdd(rest, held);
    CanonAdd(rest, 0xFFFF - Canon(rest + held));
    CanonMod(rest);
  }

  /** The same for a sum of any size in place of the word held. */
  lemma ComplementAny(rest: nat, x: nat)
    ensures Canon(rest + (0xFFFF - Canon(rest + x))) == 0xFFFF <==> x == 0 || (x % 0xFFFF == 0 && rest != 0)
  {
    CanonMod(x);
    if x > 0 {
      var q: nat :| x == Canon(x) + 0xFFFF * q;
      CanonShift(rest + Canon(x), q);
      assert rest + x == rest + Canon(x) + 0xFFFF * q;
    }
    ComplementChecks(rest, Canon(x));
  }

  lemma ChecksFrame(a: seq<byte>, b: seq<byte>, f: Field)
    requires Own(f) && |a| == |b| && FieldInBuffer(f, |a|)
    requires forall k :: f.start <= k <= f.end ==> a[k] == b[k]
    ensures Checks(a, f.start, f.end) <==> Checks(b, f.start, f.end)
  {
    WordSumFrame(a, b, f.start, Words(f));
    ChecksByWords(a, f);
    ChecksByWords(b, f);
  }

  predicate Disjoint(fs: seq<Field>) {
    forall i, j :: 0 <= i < j < |fs| ==> fs[i].pos + 2 <= fs[j].pos
  }

  /** No field stored after the i-th lies inside the i-th range. */
  predicate LastInRange(fs: seq<Field>, i: nat)
    requires i < |fs|
  {
    forall j, k :: i < j < |fs| && fs[i].start <= k <= fs[i].end ==> !InField(fs[j], k)
  }

  lemma FillLater(b: seq<byte>, fs: seq<Field>, i: nat)
    requires FieldsInBuffer(fs, |b|) && i < |fs| && LastInRange(fs, i)
    ensures forall k: nat :: fs[i].start <= k <= fs[i].end && k < |b| ==> Fill(b, fs, i + 1)[k] == Fill(b, fs, |fs|)[k]
  {
    forall k: nat | fs[i].start <= k <= fs[i].end && k < |b|
      ensures Fill(b, fs, i + 1)[k] == Fill(b, fs, |fs|)[k]
    {
      FillFrame(b, fs, i + 1, |fs|, k);
    }
  }

  lemma {:induction false} FillHeld(b: seq<byte>, fs: seq<Field>, n: nat, i: nat)
    requires FieldsInBuffer(fs, |b|) && Disjoint(fs) && n <= i < |fs|
    ensures Held(Fill(b, fs, n), fs[i]) == Held(b, fs[i])
  {
    if n > 0 {
      FillHeld(b, fs, n - 1, i);
      assert fs[n - 1].pos + 2 <= fs[i].pos;
    }
  }

  /** The loop over all fields, for any number of ranges, nested or not: a range that owns its
      field and gets no later field checks exactly when its field held zero in the buffer
      before the loop, or held 0xFFFF and the rest of the range was not all zero when its
      turn came. */
  lemma FillChecks(b: seq<byte>, fs: seq<Field>, i: nat)
    requires FieldsInBuffer(fs, |b|) && Disjoint(fs)
    requires i < |fs| && Own(fs[i]) && LastInRange(fs, i)
    ensures Checks(Fill(b, fs, |fs|), fs[i].start, fs[i].end)
            <==> Held(b, fs[i]) == 0 || (Held(b, fs[i]) == 0xFFFF && Others(Fill(b, fs, i), fs[i]) != 0)
  {
    FillHeld(b, fs, i, i);
    StoredChecks(Fill(b, fs, i), fs[i]);
    FillLater(b, fs, i);
    ChecksFrame(Fill(b, fs, i + 1), Fill(b, fs, |fs|), fs[i]);
  }

  /** No field is stored inside the i-th range when its turn comes or later. */
  predicate SettledRange(fs: seq<Field>, i: nat)
    requires i < |fs|
  {
    forall j, k :: i <= j < |fs| && fs[i].start <= k <= fs[i].end ==> !InField(fs[j], k)
  }

  lemma FillKeepsHeld(b: seq<byte>, fs: seq<Field>, i: nat)
    requires FieldsInBuffer(fs, |b|) && Disjoint(fs) && i < |fs|
    ensures Held(Fill(b, fs, |fs|), fs[i]) == Held(Fill(b, fs, i + 1), fs[i])
  {
    hide Fill;
    assert forall j :: i + 1 <= j < |fs| ==> fs[i].pos + 2 <= fs[j].pos;
    FillFrame(b, fs, i + 1, |fs|, fs[i].pos);
    FillFrame(b, fs, i + 1, |fs|, fs[i].pos + 1);
  }

  lemma RangeSumFrame(a: seq<byte>, b: seq<byte>, start: nat, end: nat)
    requires |a| == |b| && EvenRange(start, end) && end < |a|
    requires forall k :: start <= k <= end ==> a[k] == b[k]
    ensures RangeSum(a, start, end) == RangeSum(b, start, end)
  {
    var n := (end - start + 1) / 2;
    WordSumFrame(a, b, start, n);
    DeferredCarry(a, start, n);
    DeferredCarry(b, start, n);
  }

  lemma StoredComplement(b: seq<byte>, f: Field)
    requires FieldInBuffer(f, |b|) && EvenRange(f.start, f.end)
    ensures Held(Stored(b, f), f) == 0xFFFF - RangeSum(b, f.start, f.end)
  {
    DeferredCarry(b, f.start, (f.end - f.start + 1) / 2);
  }

  /** A field that stands outside its even range, as for a header summed elsewhere: when no field is
      stored inside the range at or after its turn, it ends up with the complement of the sum
      the range has in the final buffer, whatever the field held before. */
  lemma FillApart(b: seq<byte>, fs: seq<Field>, i: nat)
    requires FieldsInBuffer(fs, |b|) && Disjoint(fs)
    requires i < |fs| && EvenRange(fs[i].start, fs[i].end) && SettledRange(fs, i)
    ensures Held(Fill(b, fs, |fs|), fs[i]) == 0xFFFF - RangeSum(Fill(b, fs, |fs|), fs[i].start, fs[i].end)
  {
    var f, turn, last := fs[i], Fill(b, fs, i), Fill(b, fs, |fs|);
    forall k: nat | f.start <= k <= f.end ensures turn[k] == last[k] {
      FillFrame(b, fs, i, |fs|, k);
    }
    RangeSumFrame(turn, last, f.start, f.end);
    StoredComplement(turn, f);
    FillKeepsHeld(b, fs, i);
  }

  /** Every byte outside the fields is unchanged. */
  lemma FillOutside(b: seq<byte>, fs: seq<Field>, k: nat)
    requires FieldsInBuffer(fs, |b|) && k < |b|
    requires forall j :: 0 <= j < |fs| ==> !InField(fs[j], k)
    ensures Fill(b, fs, |fs|)[k] == b[k]
  {
    FillFrame(b, fs, 0, |fs|, k);
  }

  /** Adding one word more keeps the sum exactly when the word stands for zero. */
  lemma ExtraWord(sum: nat, hi: byte, lo: byte)
    ensures Canon(sum + Word(hi, lo)) == Canon(sum)
            <==> (lo == 0 && hi == 0) || (lo == 0xFF && hi == 0xFF && Canon(sum) != 0)
  {
    CanonAdd(sum, Word(hi, lo));
  }

  /** The sum the range should have, before its carries are folded. */
  function OddSum(b: seq<byte>, start: nat, n: nat): nat
    requires start + 2 * n < |b|
  {
    WordSum(b, start, n) + Word(b[start + 2 * n], 0)
  }

  lemma OddRangeSum(b: seq<byte>, start: nat, end: nat, n: nat)
    requires end == start + 2 * n < |b|
    ensures RangeSum(b, start, end) == Canon(OddSum(b, start, n))
  {
    DeferredCarry(b, start, n);
    CanonAdd(WordSum(b, start, n), Word(b[end], 0));
    assert (end - start + 1) / 2 == n && (end - start) % 2 == 0;
  }

  lemma OddRawSum(b: seq<byte>, start: nat, end: nat, n: nat)
    requires end == start + 2 * n < |b| - 2
    ensures RawSum(b, start, end) == OddSum(b, start, n) + Word(b[end + 2], b[end + 1])
  {
    assert (end - start) / 2 == n && (end - start) % 2 == 0;
  }

  /** An odd range: the program's value is the checksum of section 1 of RFC 1071 exactly when
      the two bytes behind the range are zero, or are 0xFF with a range that is not all zero. */
  lemma OddRange(b: seq<byte>, start: nat, end: nat)
    requires start <= end && !EvenRange(start, end) && RangeInBuffer(start, end, |b|)
    ensures CheckSumValue(b, start, end) == 0xFFFF - RangeSum(b, start, end)
            <==> (b[end + 1] == 0 && b[end + 2] == 0)
                 || (b[end + 1] == 0xFF && b[end + 2] == 0xFF && RangeSum(b, start, end) != 0)
  {
    var n := (end - start) / 2;
    assert end == start + 2 * n;
    OddRangeSum(b, start, end, n);
    OddRawSum(b, start, end, n);
    ExtraWord(OddSum(b, start, n), b[end + 2], b[end + 1]);
  }

  /** An odd range of `2 * n + 1` bytes that holds its field as its i-th word. */
  predicate OwnOdd(f: Field, n: nat, i: nat) {
    f.end == f.start + 2 * n && f.pos == f.start + 2 * i && i < n
  }

  lemma OddSumSet(b: seq<byte>, f: Field, n: nat, i: nat, w: uint16)
    requires OwnOdd(f, n, i) && f.end < |b| && f.pos + 1 < |b|
    ensures OddSum(SetWord(b, f.pos, w), f.start, n) == OddSum(b, f.start, n) - Word(b[f.pos], b[f.pos + 1]) + w
  {
    WordSumSet(b, f.start, n, i, w);
  }

  /** What an odd range adds up to besides its field. */
  function OddOthers(b: seq<byte>, f: Field, n: nat, i: nat): (s: nat)
    requires OwnOdd(f, n, i) && f.end < |b| && f.pos + 1 < |b|
  {
    OddSumSet(b, f, n, i, 0);
    OddSum(b, f.start, n) - Word(b[f.pos], b[f.pos + 1])
  }

  /** What check_sum adds that should not be there: what the field held, and the two bytes behind
      the range. */
  function Surplus(b: seq<byte>, f: Field): nat
    requires f.pos + 1 < |b| && f.end + 2 < |b|
  {
    Word(b[f.pos], b[f.pos + 1]) + Word(b[f.end + 2], b[f.end + 1])
  }

  /** The surplus stands for zero. */
  predicate OddReady(b: seq<byte>, f: Field, n: nat, i: nat)
    requires OwnOdd(f, n, i) && f.pos + 1 < |b| && f.end + 2 < |b|
  {
    Surplus(b, f) == 0 || (Surplus(b, f) % 0xFFFF == 0 && OddOthers(b, f, n, i) != 0)
  }

  lemma OddValue(b: seq<byte>, start: nat, end: nat, n: nat)
    requires end == start + 2 * n < |b| - 2
    ensures CheckSumValue(b, start, end) == 0xFFFF - Canon(OddSum(b, start, n) + Word(b[end + 2], b[end + 1]))
  {
    OddRawSum(b, start, end, n);
  }

  /** An odd range that owns its field: the stored checksum checks exactly when what the field held
      and the bytes behind the range together stand for zero, for every buffer. */
  lemma OddStoredChecks(b: seq<byte>, f: Field, n: nat, i: nat)
    requires FieldInBuffer(f, |b|) && OwnOdd(f, n, i) && f.end + 2 < |b|
    ensures Checks(Stored(b, f), f.start, f.end) <==> OddReady(b, f, n, i)
  {
    OddValue(b, f.start, f.end, n);
    hide CheckSumValue, RangeSum, OddSum;
    OddSumSet(b, f, n, i, CheckSumValue(b, f.start, f.end));
    OddRangeSum(Stored(b, f), f.start, f.end, n);
    ComplementAny(OddOthers(b, f, n, i), Surplus(b, f));
  }

  lemma OddChecksFrame(a: seq<byte>, b: seq<byte>, start: nat, end: nat, n: nat)
    requires end == start + 2 * n < |a| == |b| && forall k :: start <= k <= end ==> a[k] == b[k]
    ensures Checks(a, start, end) <==> Checks(b, start, end)
  {
    WordSumFrame(a, b, start, n);
    OddRangeSum(a, start, end, n);
    OddRangeSum(b, start, end, n);
  }

  /** The same for the buffer after the loop over all fields: an odd range that owns its field and
      gets no later field checks exactly when it was ready in the buffer when its turn came,
      where the field still held what it held before the loop. */
  lemma OddFillChecks(b: seq<byte>, fs: seq<Field>, q: nat, n: nat, i: nat)
    requires FieldsInBuffer(fs, |b|) && Disjoint(fs)
    requires q < |fs| && OwnOdd(fs[q], n, i) && fs[q].end + 2 < |b| && LastInRange(fs, q)
    ensures Held(Fill(b, fs, q), fs[q]) == Held(b, fs[q])
    ensures Checks(Fill(b, fs, |fs|), fs[q].start, fs[q].end) <==> OddReady(Fill(b, fs, q), fs[q], n, i)
  {
    hide Checks, OddReady, Fill;
    FillHeld(b, fs, q, q);
    FillNext(b, fs, q);
    OddStoredChecks(Fill(b, fs, q), fs[q], n, i);
    FillLater(b, fs, q);
    OddChecksFrame(Fill(b, fs, q + 1), Fill(b, fs, |fs|), fs[q].start, fs[q].end, n);
  }

  lemma FillNext(b: seq<byte>, fs: seq<Field>, q: nat)
    requires q < |fs| && FieldsInBuffer(fs, |b|)
    ensures Fill(b, fs, q + 1) == Stored(Fill(b, fs, q), fs[q])
  {
  }

  /** The loop of packetSend over cs_arr, in place. */
  method FillChecksums(pkt: array<byte>, fs: seq<Field>)
    requires pkt.Length <= MAX_PKT_SIZE && FieldsInBuffer(fs, pkt.Length)
    modifies pkt
    ensures pkt[..] == Fill(old(pkt[..]), fs, |fs|)
  {
    for i := 0 to |fs|
      invariant pkt[..] == Fill(old(pkt[..]), fs, i)
    {
      var cs := CheckSum(pkt, fs[i].start, fs[i].end);
      pkt[fs[i].pos] := cs / 0x100;
      pkt[fs[i].pos + 1] := cs % 0x100;
    }
  }
}
