/** The capped in-memory output of a background job: every chunk is appended and
    the buffer is cut back to its newest 64 KiB. */
module JobOutput {
  import opened Text

  const MAX_JOB_OUTPUT_BYTES: nat := 64 * 1024
  const ELLIPSIS: char := '\U{2026}'

  /** The longest suffix of `s` that starts at a character and fits in `limit` bytes. */
  function KeptTail(s: string, limit: nat): (t: string)
    ensures |t| <= |s| && ByteLen(t) <= limit
  {
    if ByteLen(s) <= limit then s else KeptTail(s[1..], limit)
  }

  function PrefixEllipsis(s: string): string {
    if s != [] && s[0] == ELLIPSIS then s else [ELLIPSIS] + s
  }

  /** One-shot cap of a whole text. */
  function Capped(s: string): string {
    if ByteLen(s) <= MAX_JOB_OUTPUT_BYTES then s else PrefixEllipsis(KeptTail(s, MAX_JOB_OUTPUT_BYTES))
  }

  /** A cut that leaves at most `limit` bytes never falls before the kept tail. */
  lemma {:induction false} NoEarlierBoundary(s: string, limit: nat, b: nat)
    requires limit < ByteLen(s) <= b + limit && IsCharBoundary(s, b)
    ensures ByteLen(s) <= b + ByteLen(KeptTail(s, limit))
  {
    if ByteLen(s[1..]) > limit {
      NoEarlierBoundary(s[1..], limit, b - Utf8Width(s[0]));
    }
  }

  /** The kept tail starts on a character boundary. */
  lemma {:induction false} TailBoundary(s: string, limit: nat) returns (b: nat)
    ensures b + ByteLen(KeptTail(s, limit)) == ByteLen(s)
    ensures IsCharBoundary(s, b) && s[CharsBefore(s, b)..] == KeptTail(s, limit)
  {
    if ByteLen(s) <= limit {
      b := 0;
    } else {
      var rest := s[1..];
      var c := TailBoundary(rest, limit);
      b := c + Utf8Width(s[0]);
      assert CharsBefore(s, b) == 1 + CharsBefore(rest, c);
      assert rest[CharsBefore(rest, c)..] == s[1 + CharsBefore(rest, c)..];
    }
  }

  method CapJobOutput(output: string) returns (capped: string)
    ensures capped == Capped(output)
  {
    if ByteLen(output) <= MAX_JOB_OUTPUT_BYTES {
      return output;
    }
    ghost var last := TailBoundary(output, MAX_JOB_OUTPUT_BYTES);
    var excess := ByteLen(output) - MAX_JOB_OUTPUT_BYTES;
    while !IsCharBoundary(output, excess)
      invariant ByteLen(output) - MAX_JOB_OUTPUT_BYTES <= excess
      invariant excess <= last
      decreases ByteLen(output) - excess
    {
      excess := excess + 1;
    }
    NoEarlierBoundary(output, MAX_JOB_OUTPUT_BYTES, excess);
    capped := PrefixEllipsis(output[CharsBefore(output, excess)..]);
  }

  /** Characters that cannot survive the cut may be dropped before more text arrives. */
  lemma {:induction false} TailOfConcat(s: string, chunk: string, limit: nat)
    ensures KeptTail(KeptTail(s, limit) + chunk, limit) == KeptTail(s + chunk, limit)
  {
    if ByteLen(s) > limit {
      ByteLenConcat(s, chunk);
      assert (s + chunk)[1..] == s[1..] + chunk;
      TailOfConcat(s[1..], chunk, limit);
    }
  }

  /** The kept tail of an over-long text is a proper suffix, at most three bytes short of
      the limit, and one more character would not have fitted. */
  lemma {:induction false} TailIsLongest(s: string, limit: nat) returns (k: nat)
    requires ByteLen(s) > limit
    ensures 0 < k <= |s| && KeptTail(s, limit) == s[k..]
    ensures ByteLen(s[k - 1..]) > limit
    ensures ByteLen(KeptTail(s, limit)) + 3 >= limit
  {
    if ByteLen(s[1..]) > limit {
      var j := TailIsLongest(s[1..], limit);
      k := j + 1;
      assert s[1..][j..] == s[k..] && s[1..][j - 1..] == s[k - 1..];
    } else {
      k := 1;
      assert s[0..] == s;
    }
  }

  /** A buffer that gained an ellipsis is over the limit as soon as anything follows,
      and the ellipsis is the first character to go. */
  lemma EllipsisGoesFirst(tail: string, chunk: string)
    requires chunk != [] && ByteLen(tail) + 3 >= MAX_JOB_OUTPUT_BYTES
    ensures ByteLen([ELLIPSIS] + tail + chunk) > MAX_JOB_OUTPUT_BYTES
    ensures KeptTail([ELLIPSIS] + tail + chunk, MAX_JOB_OUTPUT_BYTES) == KeptTail(tail + chunk, MAX_JOB_OUTPUT_BYTES)
  {
    assert ([ELLIPSIS] + tail + chunk)[1..] == tail + chunk;
    ByteLenConcat(tail, chunk);
  }

  /** Appending to a capped buffer and capping again loses nothing: the result is the
      cap of everything written so far. */
  lemma CapAbsorbsCap(text: string, chunk: string)
    ensures Capped(Capped(text) + chunk) == Capped(text + chunk)
  {
    if ByteLen(text) > MAX_JOB_OUTPUT_BYTES {
      OverlongAbsorbs(text, chunk);
    }
  }

  lemma OverlongAbsorbs(text: string, chunk: string)
    requires ByteLen(text) > MAX_JOB_OUTPUT_BYTES
    ensures Capped(Capped(text) + chunk) == Capped(text + chunk)
  {
    var tail := KeptTail(text, MAX_JOB_OUTPUT_BYTES);
    TailOfConcat(text, chunk, MAX_JOB_OUTPUT_BYTES);
    var _ := TailIsLongest(text, MAX_JOB_OUTPUT_BYTES);
    ByteLenConcat(text, chunk);
    var all := KeptTail(text + chunk, MAX_JOB_OUTPUT_BYTES);
    assert Capped(text + chunk) == PrefixEllipsis(all);
    if Capped(text) == tail {
      assert (tail + chunk)[0] == ELLIPSIS;
    } else if chunk != [] {
      EllipsisGoesFirst(tail, chunk);
    } else {
      assert text + chunk == text && Capped(text) + chunk == Capped(text);
      CapTwice(tail);
    }
  }

  lemma CapTwice(tail: string)
    requires MAX_JOB_OUTPUT_BYTES <= ByteLen(tail) + 3 && ByteLen(tail) <= MAX_JOB_OUTPUT_BYTES
    requires tail == [] || tail[0] != ELLIPSIS
    ensures Capped([ELLIPSIS] + tail) == [ELLIPSIS] + tail
  {
    var buf := [ELLIPSIS] + tail;
    assert buf[0] == ELLIPSIS && buf[1..] == tail;
    if ByteLen(buf) > MAX_JOB_OUTPUT_BYTES {
      assert KeptTail(buf, MAX_JOB_OUTPUT_BYTES) == KeptTail(tail, MAX_JOB_OUTPUT_BYTES) == tail;
    }
  }

  /** What a reader of the buffer may rely on: short texts are whole; otherwise the buffer
      starts with an ellipsis, ends with the newest text cut at a character, cannot keep one
      more character, and is at most three bytes over the limit. */
  lemma {:induction false} CappedShape(text: string)
    ensures ByteLen(text) <= 65_536 ==> Capped(text) == text
    ensures ByteLen(text) > 65_536 ==>
              exists k: nat :: 0 < k <= |text|
                && ByteLen(text[k..]) <= 65_536 < ByteLen(text[k - 1..])
                && Capped(text)[0] == '\U{2026}'
                && (Capped(text) == text[k..] || Capped(text) == ['\U{2026}'] + text[k..])
    ensures ByteLen(Capped(text)) <= 65_539
  {
    if ByteLen(text) > MAX_JOB_OUTPUT_BYTES {
      var k := TailIsLongest(text, MAX_JOB_OUTPUT_BYTES);
      EllipsisBytes(text[k..]);
    }
  }

  lemma EllipsisBytes(tail: string)
    ensures ByteLen(PrefixEllipsis(tail)) <= ByteLen(tail) + 3
  {
    assert ([ELLIPSIS] + tail)[1..] == tail;
  }

  /** The text that `chunks` spell out together. */
  function Joined(chunks: seq<string>): string {
    if chunks == [] then [] else chunks[0] + Joined(chunks[1..])
  }

  /** The buffer after appending `chunks` one at a time, as `append_output` does. */
  function Appended(buffer: string, chunks: seq<string>): string
    decreases chunks
  {
    if chunks == [] then buffer else Appended(Capped(buffer + chunks[0]), chunks[1..])
  }

  /** Streaming cap refines one-shot cap, for every way the text is cut into chunks. */
  lemma {:induction false} StreamingCap(text: string, chunks: seq<string>)
    ensures Appended(Capped(text), chunks) == Capped(text + Joined(chunks))
    decreases chunks
  {
    hide Capped;
    if chunks == [] {
      assert text + Joined(chunks) == text;
    } else {
      CapAbsorbsCap(text, chunks[0]);
      StreamingCap(text + chunks[0], chunks[1..]);
      assert text + Joined(chunks) == text + chunks[0] + Joined(chunks[1..]);
    }
  }

  /** The output half of a job: the capped buffer, and (ghost) everything ever appended. */
  class JobBuffer {
    var output: string
    ghost var written: string

    ghost predicate Valid()
      reads this
    {
      output == Capped(written)
    }

    constructor ()
      ensures Valid() && written == []
    {
      output, written := [], [];
    }

    /** Under the job's lock: push the chunk, then cap. */
    method AppendOutput(chunk: string)
      requires Valid()
      modifies this
      ensures Valid() && written == old(written) + chunk
      ensures output == Appended(old(output), [chunk])
    {
      CapAbsorbsCap(written, chunk);
      output := CapJobOutput(output + chunk);
      written := written + chunk;
    }
  }
}
