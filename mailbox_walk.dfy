/**
 * The property-buffer walk of the emulated BCM2835 mailbox (utils/mailbox.py:41-59).
 *
 * The guest posts the address of a buffer on channel 8. The buffer follows the
 * Raspberry Pi firmware's property interface: a size word at +0, a request/response
 * code at +4, then a list of tags starting at +8, each made of a tag word, a value
 * size in bytes, a request/response code and a value buffer padded to whole words,
 * the list ending with a zero tag. The emulator stamps the buffer code, answers every
 * tag whose code is still 0 and fills in the temperature for the "get temperature" tag.
 *
 * The system bus is a map from byte address to 32-bit word; an unmapped address reads
 * as 0. Every access of the walk is at the buffer address plus a multiple of four, so
 * no two accessed words overlap and a word-keyed map describes them exactly.
 */
module PropertyBuffer {
  import opened Wrappers

  const WordLimit: int := 0x1_0000_0000

  type Word = x: int | 0 <= x < 0x1_0000_0000

  type Memory = map<nat, Word>

  /** The response code written at +4, and the bit set in every tag response. */
  const ResponseSuccess: Word := 0x8000_0000

  /** "Get temperature" tag of the firmware's property interface. */
  const TemperatureTag: Word := 0x0003_0006

  /** Offset of the first tag in a buffer. */
  const FirstTagOffset: nat := 8

  function Read(mem: Memory, addr: nat): Word {
    if addr in mem then mem[addr] else 0
  }

  /** The value size rounded up to whole words, as `((value_size + 3) // 4) * 4`. */
  function PaddedSize(size: Word): (r: nat)
    ensures r % 4 == 0
    ensures size <= r < size + 4
  {
    ((size + 3) / 4) * 4
  }

  /**
   * The answer stamped into a tag's code word, `0x80000000 | value_size`: the size with
   * its top bit set, written here with arithmetic on the word's value.
   */
  function ResponseCode(size: Word): (r: Word)
    ensures r >= ResponseSuccess
    ensures r % 0x8000_0000 == size % 0x8000_0000
  {
    if size >= ResponseSuccess then size else size + ResponseSuccess
  }

  /** The temperature word, `int(temperature * 1000)`: milli-degrees truncated toward zero. */
  function MilliDegrees(t: real): (r: Word)
    requires 0.0 <= t && t * 1000.0 < WordLimit as real
    ensures r as real <= t * 1000.0 < r as real + 1.0
  {
    (t * 1000.0).Floor
  }

  /** Offset of the tag that follows the tag at `pos`: tag, size and code words, then the padded value. */
  function NextTag(mem: Memory, base: nat, pos: nat): (r: nat)
    ensures r >= pos + 12 && (r - pos) % 4 == 0
    ensures pos + 12 + Read(mem, base + pos + 4) <= r < pos + 16 + Read(mem, base + pos + 4)
  {
    pos + 12 + PaddedSize(Read(mem, base + pos + 4))
  }

  /** Where the walk stands: the memory so far and the offset of the next tag to read. */
  datatype Cursor = Cursor(mem: Memory, pos: nat)

  /**
   * One turn of the loop for the non-zero tag at `pos`: a tag whose code is already
   * non-zero is skipped; otherwise its code becomes the response code and, for the
   * temperature tag, the second word of its value becomes the temperature.
   */
  function AnswerTag(mem: Memory, base: nat, pos: nat, temp: Word): (r: Cursor)
    ensures r.pos == NextTag(mem, base, pos)
    ensures Read(mem, base + pos + 8) != 0 ==> r.mem == mem
    ensures Read(mem, base + pos + 8) == 0 ==>
              Read(r.mem, base + pos + 8) == ResponseCode(Read(mem, base + pos + 4))
    ensures Read(mem, base + pos + 8) == 0 && Read(mem, base + pos) == TemperatureTag ==>
              Read(r.mem, base + pos + 16) == temp
    ensures forall a: nat :: a != base + pos + 8 && (a != base + pos + 16 || Read(mem, base + pos) != TemperatureTag) ==>
              Read(r.mem, a) == Read(mem, a)
  {
    var tag := Read(mem, base + pos);
    var size := Read(mem, base + pos + 4);
    var codePos := pos + 8;
    var valuePos := pos + 12;
    var code := Read(mem, base + codePos);
    if code != 0 then
      Cursor(mem, NextTag(mem, base, pos))
    else
      var answered := mem[base + codePos := ResponseCode(size)];
      if tag == TemperatureTag then
        Cursor(answered[base + valuePos + 4 := temp], NextTag(mem, base, pos))
      else
        Cursor(answered, NextTag(mem, base, pos))
  }

  /**
   * The walk from the tag at `pos` to the first zero tag, or None when more than `fuel`
   * non-zero tags come first (the source loop has no bound).
   */
  function Walk(mem: Memory, base: nat, pos: nat, temp: Word, fuel: nat): Option<Memory>
    decreases fuel
  {
    if Read(mem, base + pos) == 0 then Some(mem)
    else if fuel == 0 then None
    else
      var c := AnswerTag(mem, base, pos, temp);
      Walk(c.mem, base, c.pos, temp, fuel - 1)
  }

  /** The whole of `_process_property_buffer`: stamp the buffer code, then walk the tags. */
  function Process(mem: Memory, base: nat, temp: Word, fuel: nat): Option<Memory> {
    Walk(mem[base + 4 := ResponseSuccess], base, FirstTagOffset, temp, fuel)
  }

  /** A word the walk may write: a response code (top bit set) or the temperature. */
  predicate IsAnswer(w: Word, temp: Word) {
    w >= ResponseSuccess || w == temp
  }

  /**
   * `m'` differs from `m` only at addresses from `from` on that lie a whole number of
   * words after `origin`, and only by holding an answer there.
   */
  ghost predicate AnswersOnly(m: Memory, m': Memory, origin: nat, from: nat, temp: Word) {
    forall a: nat :: Read(m', a) != Read(m, a) ==>
      from <= a && origin <= a && (a - origin) % 4 == 0 && IsAnswer(Read(m', a), temp)
  }

  lemma AnswersOnlyTrans(m0: Memory, m1: Memory, m2: Memory, origin: nat, from: nat, from': nat, temp: Word)
    requires from <= from'
    requires AnswersOnly(m0, m1, origin, from, temp) && AnswersOnly(m1, m2, origin, from', temp)
    ensures AnswersOnly(m0, m2, origin, from, temp)
  {
  }

  /** One tag's answer writes only answers, at the code word and at value+4, both word-aligned. */
  lemma AnswerTagWritesOnlyAnswers(mem: Memory, base: nat, pos: nat, temp: Word)
    requires pos % 4 == 0
    ensures AnswerTag(mem, base, pos, temp).pos % 4 == 0
    ensures AnswersOnly(mem, AnswerTag(mem, base, pos, temp).mem, base, base + pos + 8, temp)
  {
    var c := AnswerTag(mem, base, pos, temp);
    forall a: nat | Read(c.mem, a) != Read(mem, a)
      ensures base + pos + 8 <= a && base <= a && (a - base) % 4 == 0 && IsAnswer(Read(c.mem, a), temp)
    {
      assert a == base + pos + 8 || a == base + pos + 16;
    }
  }

  /**
   * The walk keeps `pos` word-aligned and writes nothing but answers, and only at
   * word-aligned addresses at or after the first code word it reaches.
   */
  lemma {:induction false} WalkWritesOnlyAnswers(mem: Memory, base: nat, pos: nat, temp: Word, fuel: nat)
    requires pos % 4 == 0
    requires Walk(mem, base, pos, temp, fuel).Some?
    ensures AnswersOnly(mem, Walk(mem, base, pos, temp, fuel).value, base, base + pos + 8, temp)
    decreases fuel
  {
    if Read(mem, base + pos) != 0 {
      var c := AnswerTag(mem, base, pos, temp);
      AnswerTagWritesOnlyAnswers(mem, base, pos, temp);
      WalkWritesOnlyAnswers(c.mem, base, c.pos, temp, fuel - 1);
      AnswersOnlyTrans(mem, c.mem, Walk(mem, base, pos, temp, fuel).value, base, base + pos + 8, base + c.pos + 8, temp);
    }
  }

  /** The whole processing writes only answers, at word-aligned addresses from +4 on. */
  lemma ProcessWritesOnlyAnswers(mem: Memory, base: nat, temp: Word, fuel: nat)
    requires Process(mem, base, temp, fuel).Some?
    ensures AnswersOnly(mem, Process(mem, base, temp, fuel).value, base, base + 4, temp)
    ensures Read(Process(mem, base, temp, fuel).value, base + 4) == ResponseSuccess
    ensures forall a: nat :: a < base + 4 ==> Read(Process(mem, base, temp, fuel).value, a) == Read(mem, a)
  {
    var stamped := mem[base + 4 := ResponseSuccess];
    WalkWritesOnlyAnswers(stamped, base, FirstTagOffset, temp, fuel);
    assert AnswersOnly(mem, stamped, base, base + 4, temp);
    AnswersOnlyTrans(mem, stamped, Process(mem, base, temp, fuel).value, base, base + 4, base + 16, temp);
  }

  /**
   * The tag list from `pos` ends with a zero tag within `fuel` non-zero tags, and every
   * temperature tag has room in its value buffer for the word written at value+4.
   */
  predicate WellFormed(mem: Memory, base: nat, pos: nat, fuel: nat)
    decreases fuel
  {
    var tag := Read(mem, base + pos);
    tag == 0 ||
    (fuel > 0 &&
     (tag == TemperatureTag ==> Read(mem, base + pos + 4) > 4) &&
     WellFormed(mem, base, NextTag(mem, base, pos), fuel - 1))
  }

  /** Whether a tag list is well formed depends only on the words from its first tag on. */
  lemma {:induction false} WellFormedFrame(m1: Memory, m2: Memory, base: nat, pos: nat, fuel: nat)
    requires forall a: nat :: a >= base + pos ==> Read(m1, a) == Read(m2, a)
    ensures WellFormed(m1, base, pos, fuel) == WellFormed(m2, base, pos, fuel)
    decreases fuel
  {
    assert Read(m1, base + pos) == Read(m2, base + pos);
    assert Read(m1, base + pos + 4) == Read(m2, base + pos + 4);
    if fuel > 0 {
      WellFormedFrame(m1, m2, base, NextTag(m1, base, pos), fuel - 1);
    }
  }

  /**
   * On a well-formed list the walk halts, and walking its result again changes nothing:
   * every tag it reached now holds a non-zero code, and no write landed on a tag,
   * size or code word still ahead of it.
   */
  lemma {:induction false} WalkIdempotent(mem: Memory, base: nat, pos: nat, temp: Word, fuel: nat)
    requires pos % 4 == 0
    requires WellFormed(mem, base, pos, fuel)
    ensures Walk(mem, base, pos, temp, fuel).Some?
    ensures Walk(Walk(mem, base, pos, temp, fuel).value, base, pos, temp, fuel) == Walk(mem, base, pos, temp, fuel)
    decreases fuel
  {
    if Read(mem, base + pos) != 0 {
      var c := AnswerTag(mem, base, pos, temp);
      assert Read(mem, base + pos) == TemperatureTag ==> c.pos > pos + 16;
      WellFormedFrame(mem, c.mem, base, c.pos, fuel - 1);
      WalkIdempotent(c.mem, base, c.pos, temp, fuel - 1);
      var m' := Walk(c.mem, base, c.pos, temp, fuel - 1).value;
      WalkWritesOnlyAnswers(c.mem, base, c.pos, temp, fuel - 1);
      assert Read(m', base + pos) == Read(c.mem, base + pos);
      assert Read(m', base + pos + 4) == Read(c.mem, base + pos + 4);
      assert Read(m', base + pos + 8) == Read(c.mem, base + pos + 8);
      assert AnswerTag(m', base, pos, temp) == Cursor(m', c.pos);
    }
  }

  /** Posting the same well-formed buffer twice answers it once: the second pass writes nothing new. */
  lemma ProcessIdempotent(mem: Memory, base: nat, temp: Word, fuel: nat)
    requires WellFormed(mem, base, FirstTagOffset, fuel)
    ensures Process(mem, base, temp, fuel).Some?
    ensures Process(Process(mem, base, temp, fuel).value, base, temp, fuel) == Process(mem, base, temp, fuel)
  {
    var stamped := mem[base + 4 := ResponseSuccess];
    WellFormedFrame(mem, stamped, base, FirstTagOffset, fuel);
    WalkIdempotent(stamped, base, FirstTagOffset, temp, fuel);
    var m' := Process(mem, base, temp, fuel).value;
    WalkWritesOnlyAnswers(stamped, base, FirstTagOffset, temp, fuel);
    assert Read(m', base + 4) == ResponseSuccess;
    assert m'[base + 4 := ResponseSuccess] == m';
  }

  /**
   * A buffer holding one "get temperature" request (value size 8, code 0) and the end
   * tag is answered with code 0x80000008 and the temperature in the value's second word.
   */
  lemma TemperatureRequestAnswered(base: nat, temp: Word)
    ensures var request := map[base := 32, base + 4 := 0, base + 8 := TemperatureTag, base + 12 := 8,
                               base + 16 := 0, base + 20 := 0, base + 24 := 0, base + 28 := 0];
            Process(request, base, temp, 1) ==
              Some(request[base + 4 := ResponseSuccess][base + 16 := 0x8000_0008][base + 24 := temp])
  {
  }
}
