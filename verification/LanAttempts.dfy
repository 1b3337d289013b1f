/**
 Attempts over the local network: the reply that carries the offset as text, the sender's reader task,
 and what a series of attempts does to the file.
 */
module LanAttempts {
  import opened Basics
  import opened Aead
  import opened Files
  import opened LanReceive

  // ---- the reply ----

  const ZERO: Byte := 0x30
  const ACCEPT: Bytes := [0x41, 0x43, 0x43, 0x45, 0x50, 0x54]
  const ACCEPT_AT: Bytes := ACCEPT + [0x3A]

  function Decimal(n: nat): (text: Bytes)
    ensures text != []
  {
    (if n < 10 then [] else Decimal(n / 10)) + [ZERO + n % 10]
  }

  function AcceptText(offset: nat): Bytes {
    if offset > 0 then ACCEPT_AT + Decimal(offset) else ACCEPT
  }

  predicate IsDigit(b: Byte) {
    ZERO <= b <= ZERO + 9
  }

  /** Decimal digits of a number below 2^64. */
  function ParseDigits(text: Bytes): Option<nat> {
    if text == [] then Some(0)
    else
      var last := text[|text| - 1];
      match ParseDigits(text[..|text| - 1])
      case None => None
      case Some(v) =>
        if IsDigit(last) && v * 10 + (last - ZERO) < U64_MODULUS then Some(v * 10 + (last - ZERO)) else None
  }

  /** The parser of unsigned integers: one leading plus is allowed, no digits are not. */
  function ParseU64(text: Bytes): Option<nat> {
    var digits := if text != [] && text[0] == 0x2B then text[1..] else text;
    if digits == [] then None else ParseDigits(digits)
  }

  /** The offset to start at, or None for a rejection; a number that does not parse stands for 0. */
  function ParseAccept(text: Bytes): Option<nat> {
    if |text| >= 7 && text[..7] == ACCEPT_AT then
      (match ParseU64(text[7..]) case Some(n) => Some(n) case None => Some(0))
    else if text == ACCEPT then Some(0)
    else None
  }

  lemma {:induction false} DecimalRoundTrip(n: nat)
    requires n < U64_MODULUS
    ensures ParseDigits(Decimal(n)) == Some(n) && IsDigit(Decimal(n)[0])
  {
    var head := if n < 10 then [] else Decimal(n / 10);
    assert Decimal(n)[..|Decimal(n)| - 1] == head;
    if n >= 10 { DecimalRoundTrip(n / 10); }
  }

  /** The sender reads back the offset the receiver announced, for every offset a file can have. */
  lemma AcceptRoundTrip(offset: nat)
    requires offset < U64_MODULUS
    ensures ParseAccept(AcceptText(offset)) == Some(offset)
  {
    if offset > 0 {
      DecimalRoundTrip(offset);
      assert AcceptText(offset)[7..] == Decimal(offset);
    }
  }

  /** The number that decimal digits stand for. */
  function Value(digits: Bytes): int {
    if digits == [] then 0 else Value(digits[..|digits| - 1]) * 10 + (digits[|digits| - 1] - ZERO)
  }

  predicate AllDigits(text: Bytes) {
    forall k :: 0 <= k < |text| ==> IsDigit(text[k])
  }

  lemma {:induction false} ValueNotNegative(digits: Bytes)
    requires AllDigits(digits)
    ensures Value(digits) >= 0
  {
    if digits != [] { ValueNotNegative(digits[..|digits| - 1]); }
  }

  /** A text parses exactly when it is digits of a number below 2^64, and to that number. */
  lemma {:induction false} ParseDigitsExactly(text: Bytes)
    ensures ParseDigits(text) == if AllDigits(text) && Value(text) < U64_MODULUS then Some(Value(text)) else None
  {
    if text != [] {
      var init, last := text[..|text| - 1], text[|text| - 1];
      ParseDigitsExactly(init);
      assert text == init + [last];
      assert AllDigits(text) <==> AllDigits(init) && IsDigit(last);
      if AllDigits(init) { ValueNotNegative(init); }
    }
  }

  /** Every reply text: rejected unless it is ACCEPT, alone or with a colon; the number after the colon is
      taken if it is one, with or without a plus before it, and 0 otherwise. */
  lemma ParseAcceptExactly(text: Bytes)
    ensures ParseAccept(text) == None <==> text != ACCEPT && !(ACCEPT_AT <= text)
    ensures text == ACCEPT ==> ParseAccept(text) == Some(0)
    ensures ACCEPT_AT <= text ==>
              var rest := text[7..];
              var digits := if rest != [] && rest[0] == 0x2B then rest[1..] else rest;
              var good := digits != [] && AllDigits(digits) && Value(digits) < U64_MODULUS;
              ParseAccept(text) == Some(if good then Value(digits) else 0)
  {
    assert |ACCEPT_AT| == 7 && |ACCEPT| == 6;
    if |text| >= 7 {
      var rest := text[7..];
      ParseDigitsExactly(if rest != [] && rest[0] == 0x2B then rest[1..] else rest);
      assert ACCEPT_AT <= text <==> text[..7] == ACCEPT_AT;
    }
  }

  // ---- the sender's reader task ----

  /** A frame; its 32-bit index is written but the receiver counts for itself. */
  datatype WireFrame = WireFrame(index: nat, block: Block)

  ghost predicate FramesSeal(x: Session, frames: seq<WireFrame>, plain: seq<Bytes>) {
    |frames| == |plain| && forall k: nat :: k < |frames| ==> FrameSeals(x, frames, plain, k)
  }

  ghost predicate FrameSeals(x: Session, frames: seq<WireFrame>, plain: seq<Bytes>, k: nat) {
    && k < |frames| && k < |plain| && frames[k].block == SealFrom(x, plain, k)
    && frames[k].index == (x.start / BLOCK + k) % U32_MODULUS
  }

  /** The bytes from lo to hi, as far as the file goes. */
  function Between(content: Bytes, lo: nat, hi: nat): Bytes
    requires lo <= hi
  {
    content[Min(lo, |content|)..Min(hi, |content|)]
  }

  ghost predicate NonEmpty(blocks: seq<Bytes>) {
    forall k :: 0 <= k < |blocks| ==> blocks[k] != []
  }

  /** The reader has come to `position`. */
  ghost predicate Sealed(x: Session, content: Bytes, position: nat, frames: seq<WireFrame>, plain: seq<Bytes>,
                         hashed: Bytes) {
    && FramesSeal(x, frames, plain) && NonEmpty(plain)
    && x.start <= position && (position <= |content| || plain == [])
    && Flatten(plain) == Between(content, x.start, position)
    && hashed == Between(content, 0, position)
  }

  /** Hashes the skipped prefix, then seals whatever each read brings.  For every way the reads split
      the file the blocks concatenate to the source from the start offset on, block k is sealed under
      counter `start / BLOCK + k`, and the hash is the whole file's. */
  method ReadAndSeal(x: Session, file: FileHandle)
    returns (frames: seq<WireFrame>, hash: Digest, ghost plain: seq<Bytes>)
    requires file.position == 0
    modifies file`position
    ensures FramesSeal(x, frames, plain) && NonEmpty(plain)
    ensures Flatten(plain) == file.content[Min(x.start, |file.content|)..]
    ensures hash == Digest(file.content)
  {
    var hashed := HashPrefix(file, BLOCK, x.start);
    file.Seek(x.start);
    var blockIndex := x.start / BLOCK;
    frames, plain := [], [];
    while true
      invariant blockIndex == x.start / BLOCK + |frames|
      invariant Sealed(x, file.content, file.position, frames, plain, hashed)
      decreases |file.content| - file.position
    {
      ghost var from := file.position;
      var block := file.Read(BLOCK);
      if block == [] { break; }
      SealedNext(x, file.content, from, file.position, frames, plain, hashed, block);
      hashed := hashed + block;
      frames := frames + [Seal(x, blockIndex, block)];
      plain, blockIndex := plain + [block], blockIndex + 1;
    }
    hash := Digest(hashed);
  }

  /** The frame of one block; its index is cut to 32 bits. */
  function Seal(x: Session, index: nat, block: Bytes): WireFrame {
    WireFrame(index % U32_MODULUS, Encrypt(x.key, BuildNonce(x.prefix, index), block))
  }

  lemma BetweenGrows(content: Bytes, lo: nat, mid: nat, hi: nat)
    requires lo <= mid <= hi <= |content|
    ensures Between(content, lo, hi) == Between(content, lo, mid) + content[mid..hi]
  {
  }

  lemma SealedNext(x: Session, content: Bytes, from: nat, to: nat, frames: seq<WireFrame>, plain: seq<Bytes>,
                   hashed: Bytes, block: Bytes)
    requires Sealed(x, content, from, frames, plain, hashed) && block != []
    requires from < to <= |content| && block == content[from..to]
    ensures Sealed(x, content, to, frames + [Seal(x, x.start / BLOCK + |frames|, block)], plain + [block], hashed + block)
  {
    BetweenGrows(content, 0, from, to);
    BetweenGrows(content, x.start, from, to);
    FlattenSnoc(plain, block);
    SealNext(x, frames, plain, block);
  }

  lemma SealNext(x: Session, frames: seq<WireFrame>, plain: seq<Bytes>, block: Bytes)
    requires FramesSeal(x, frames, plain)
    ensures FramesSeal(x, frames + [Seal(x, x.start / BLOCK + |frames|, block)], plain + [block])
  {
    var more := frames + [Seal(x, x.start / BLOCK + |frames|, block)];
    forall k: nat | k < |more| ensures FrameSeals(x, more, plain + [block], k) {
      if k < |frames| { assert FrameSeals(x, frames, plain, k); }
    }
  }

  lemma {:induction false} FewBlocks(blocks: seq<Bytes>)
    requires NonEmpty(blocks)
    ensures |blocks| <= |Flatten(blocks)|
  {
    if blocks != [] { FewBlocks(blocks[1..]); }
  }

  lemma CountersFit(start: nat, source: Bytes, plain: seq<Bytes>)
    requires NonEmpty(plain) && plain != [] && Flatten(plain) == source[Min(start, |source|)..]
    ensures start / BLOCK + |plain| <= |source|
  {
    FewBlocks(plain);
    assert |plain| <= |source| - start;
    assert start / BLOCK <= start;
  }

  lemma FrameNonce(x: Session, frames: seq<WireFrame>, plain: seq<Bytes>, k: nat)
    requires FramesSeal(x, frames, plain) && k < |frames|
    ensures frames[k].block.nonce == BuildNonce(x.prefix, x.start / BLOCK + k)
  {
    assert FrameSeals(x, frames, plain, k);
  }

  /** No nonce of a session seals two blocks, however the reads split a file that has a 64-bit size. */
  lemma NoncesDistinct(x: Session, source: Bytes, frames: seq<WireFrame>, plain: seq<Bytes>, j: nat, k: nat)
    requires FramesSeal(x, frames, plain) && NonEmpty(plain) && |source| < U64_MODULUS
    requires Flatten(plain) == source[Min(x.start, |source|)..]
    requires j < k < |frames|
    ensures frames[j].block.nonce != frames[k].block.nonce
  {
    var first := x.start / BLOCK;
    assert first + |plain| <= |source| by { CountersFit(x.start, source, plain); }
    assert frames[j].block.nonce == BuildNonce(x.prefix, first + j) by { FrameNonce(x, frames, plain, j); }
    assert frames[k].block.nonce == BuildNonce(x.prefix, first + k) by { FrameNonce(x, frames, plain, k); }
    CountersDiffer(x.prefix, first + j, first + k);
  }

  lemma CountersDiffer(prefix: Bytes, i: nat, j: nat)
    requires i < j < U64_MODULUS
    ensures BuildNonce(prefix, i) != BuildNonce(prefix, j)
  {
    NonceInjective(prefix, i, j);
  }

  // ---- attempts ----

  /** One attempt at `source`, run to its end by `steps`. */
  datatype Attempt = Attempt(key: Key, prefix: Bytes, force: bool, steps: seq<Step>)

  /** The two ends after the reply, for a source that a 64-bit size describes. */
  function SessionOf(source: Bytes, before: Option<Bytes>, a: Attempt): Session {
    var (offset, isResume) := ResumePoint(before, |source|, a.force);
    var start := match ParseAccept(AcceptText(offset)) case Some(n) => n case None => 0;
    Session(a.key, a.prefix, Digest(source), offset, isResume, start)
  }

  function EndOf(source: Bytes, before: Option<Bytes>, a: Attempt): State {
    LanReceive.Play(SessionOf(source, before, a), Init(SessionOf(source, before, a), before), a.steps)
  }

  /** Undisturbed from start to end, with a sender that reads this source in some blocks. */
  ghost predicate HonestAttempt(source: Bytes, before: Option<Bytes>, a: Attempt, blocks: seq<Bytes>) {
    var x := SessionOf(source, before, a);
    && Flatten(blocks) == source[Min(x.start, |source|)..]
    && HonestRun(x, before, blocks, a.steps)
    && EndOf(source, before, a).loop.Ended?
  }

  predicate Resumes(source: Bytes, before: Option<Bytes>, force: bool) {
    !force && before.Some? && 0 < |before.value| < |source|
  }

  lemma RoundDown(n: nat)
    ensures (n / BLOCK) * BLOCK == n - n % BLOCK
  {
  }

  lemma SessionAgrees(source: Bytes, before: Option<Bytes>, a: Attempt)
    requires |source| < U64_MODULUS
    ensures var x := SessionOf(source, before, a);
            && Agreed(x, before) && x.offset <= |source|
            && x.isResume == Resumes(source, before, a.force)
            && (x.isResume ==> x.offset == |before.value| - |before.value| % BLOCK)
            && (!x.isResume ==> x.offset == 0)
  {
    var (offset, isResume) := ResumePoint(before, |source|, a.force);
    if isResume { RoundDown(|before.value|); }
    AcceptRoundTrip(offset);
  }

  /** Which leftovers an undisturbed attempt turns into the source: those it does not resume from, and
      those that are a whole number of blocks of it.  The file is appended to, never cut back, so any
      other leftover makes the attempt end with a mismatch and no file. */
  lemma AttemptVerdict(source: Bytes, before: Option<Bytes>, a: Attempt, blocks: seq<Bytes>)
    requires |source| < U64_MODULUS && HonestAttempt(source, before, a, blocks)
    ensures var good := !Resumes(source, before, a.force)
                        || (|before.value| % BLOCK == 0 && before.value == source[..|before.value|]);
            var s := EndOf(source, before, a);
            if good then s.disk == Some(source) && s.announced && s.loop == Ended(true)
            else s.disk == None && !s.announced && MismatchError in s.sent
  {
    var x := SessionOf(source, before, a);
    SessionAgrees(source, before, a);
    HonestRunOk(x, before, blocks, a.steps);
    PlayOk(x, before, a.steps);
    AppendedIsSource(source, Base(x, before), x.offset);
  }

  lemma AppendedIsSource(source: Bytes, base: Bytes, offset: nat)
    requires offset <= |source|
    ensures base + source[offset..] == source <==> |base| == offset && base == source[..offset]
  {
    var whole := base + source[offset..];
    if whole == source {
      assert |base| + (|source| - offset) == |source|;
      assert whole[..|base|] == base;
    }
    if |base| == offset && base == source[..offset] { assert source[..offset] + source[offset..] == source; }
  }

  /** Whatever went wrong in an attempt that got to its end, it left no file or the exact source, unless
      it could not remove the file, and announced completion only with the source on disk; one undisturbed
      attempt then finishes. */
  lemma OneAfterAnyEnd(source: Bytes, leftover: Option<Bytes>, first: Attempt, second: Attempt, blocks: seq<Bytes>)
    requires |source| < U64_MODULUS
    requires EndOf(source, leftover, first).loop.Ended?
    requires HonestAttempt(source, EndOf(source, leftover, first).disk, second, blocks)
    ensures var s := EndOf(source, leftover, first);
            && (s.disk == None || s.disk == Some(source) || s.stray)
            && (s.announced || Complete in s.sent ==> s.disk == Some(source))
            && (!s.stray ==> EndOf(source, s.disk, second).disk == Some(source)
                             && EndOf(source, s.disk, second).announced)
  {
    NoBadFileLeft(SessionOf(source, leftover, first), leftover, first.steps);
    AttemptVerdict(source, EndOf(source, leftover, first).disk, second, blocks);
  }

  /** Retries converge: from any leftover at all, two undisturbed attempts end with the source on disk. */
  lemma TwoAttemptsSuffice(source: Bytes, leftover: Option<Bytes>, first: Attempt, second: Attempt,
                           xs: seq<Bytes>, ys: seq<Bytes>)
    requires |source| < U64_MODULUS
    requires HonestAttempt(source, leftover, first, xs)
    requires HonestAttempt(source, EndOf(source, leftover, first).disk, second, ys)
    ensures EndOf(source, EndOf(source, leftover, first).disk, second).disk == Some(source)
  {
    AttemptVerdict(source, leftover, first, xs);
    AttemptVerdict(source, EndOf(source, leftover, first).disk, second, ys);
  }

  /** Undisturbed attempts exist, for every leftover and every way of reading the source. */
  lemma AttemptExists(source: Bytes, before: Option<Bytes>, a: Attempt, blocks: seq<Bytes>) returns (b: Attempt)
    requires |source| < U64_MODULUS
    requires Flatten(blocks) == source[Min(SessionOf(source, before, a).start, |source|)..]
    ensures b == a.(steps := b.steps) && HonestAttempt(source, before, b, blocks)
    ensures |b.steps| == 2 * |blocks| + 4
  {
    var x := SessionOf(source, before, a);
    SessionAgrees(source, before, a);
    var steps := HonestRunEnds(x, before, blocks, []);
    b := a.(steps := steps);
    assert SessionOf(source, before, b) == x;
    HonestRunLength(x, before, blocks, steps);
  }

  /** What AttemptVerdict says of a leftover that is resumed from but is not whole blocks. */
  lemma UnalignedFails(source: Bytes, before: Option<Bytes>, a: Attempt, blocks: seq<Bytes>)
    requires |source| < U64_MODULUS && HonestAttempt(source, before, a, blocks)
    requires Resumes(source, before, a.force) && |before.value| % BLOCK != 0
    ensures EndOf(source, before, a).disk == None
  {
    AttemptVerdict(source, before, a, blocks);
  }

  lemma OneByte(source: Bytes)
    requires 1 < |source|
    ensures Resumes(source, Some(source[..1]), false) && |source[..1]| % BLOCK == 1
  {
  }

  /** One attempt may not be enough: a single stray byte left behind defeats it. */
  lemma OneMayNotSuffice(source: Bytes, first: Attempt, blocks: seq<Bytes>)
    requires 1 < |source| < U64_MODULUS && !first.force
    requires HonestAttempt(source, Some(source[..1]), first, blocks)
    ensures EndOf(source, Some(source[..1]), first).disk == None
  {
    OneByte(source);
    UnalignedFails(source, Some(source[..1]), first, blocks);
  }
}
