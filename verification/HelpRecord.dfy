/**
 The one-word encoding of a help record (EncodedReq in src/help_record.rs) on a 64-bit word:
 0 is empty, an odd word is a pending phase, any other word is a span address.  The protocol
 in module Helping works on decoded records; this module is what licenses that.
 */
module HelpRecord {
  import opened Wrappers
  import opened Helping

  const WORDS: nat := 2 * PHASES

  type Word = w: nat | w < WORDS

  function IsPending(w: Word): bool { w % 2 == 1 }

  /** `pending`: the shift drops the top bit of the phase. */
  function PendingWord(phase: Word): (w: Word) { (phase * 2) % WORDS + (if (phase * 2) % WORDS % 2 == 0 then 1 else 0) }

  function DoneWord(span: Word): Word { span }

  /** `phase`: the shift to the right. */
  function PhaseOf(w: Word): Word { w / 2 }

  /** `span`: the low bit cleared. */
  function SpanWord(w: Word): Word { w - w % 2 }

  function Decode(w: Word): Record {
    if w == 0 then Empty
    else if IsPending(w) then Pending(PhaseOf(w))
    else Done(SpanWord(w))
  }

  /** The records a word can hold: phases below 2^63, non-null even addresses. */
  ghost predicate Fits(r: Record) {
    match r
    case Empty => true
    case Pending(p) => p < PHASES
    case Done(x) => 0 < x < WORDS && x % 2 == 0
  }

  function Encode(r: Record): Word
    requires Fits(r)
  {
    match r
    case Empty => 0
    case Pending(p) => PendingWord(p)
    case Done(x) => DoneWord(x)
  }

  /** The 64-bit phase counter reaches the word only modulo 2^63. */
  lemma PendingKeepsLowBits(phase: Word)
    ensures PendingWord(phase) == 2 * (phase % PHASES) + 1
    ensures Decode(PendingWord(phase)) == Pending(phase % PHASES)
  {
    if phase < PHASES {
      assert phase % PHASES == phase;
    } else {
      assert phase % PHASES == phase - PHASES;
      assert phase * 2 == WORDS + 2 * (phase - PHASES);
      assert (phase * 2) % WORDS == 2 * (phase - PHASES);
    }
  }

  lemma DecodeEncode(r: Record)
    requires Fits(r)
    ensures Decode(Encode(r)) == r
  {
    if r.Pending? { PendingKeepsLowBits(r.phase); }
  }

  lemma EncodeDecode(w: Word)
    ensures Fits(Decode(w)) && Encode(Decode(w)) == w
  {
    if IsPending(w) {
      PendingKeepsLowBits(w / 2);
      assert w / 2 < PHASES;
    }
  }

  /** Comparing words, as the completion and withdrawal CASes do, compares records. */
  lemma WordsCompareAsRecords(a: Record, b: Record)
    requires Fits(a) && Fits(b)
    ensures Encode(a) == Encode(b) <==> a == b
    ensures IsPending(Encode(a)) <==> a.Pending?
  {
    DecodeEncode(a);
    DecodeEncode(b);
    if a.Pending? { PendingKeepsLowBits(a.phase); }
  }
}
