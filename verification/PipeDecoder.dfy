/** Decoding a pipe read by read: the first bytes of a character that a read cuts in two
    wait for the rest. */
module PipeDecoder {
  import opened Text
  import opened Utf8
  import opened JobOutput

  /** `complete_utf8_len`: everything except an unfinished last character, unless an
      earlier malformed unit is what the check stops at. */
  function CompleteLen(bytes: seq<Byte>): (n: nat)
    ensures n <= |bytes| && |bytes| - n <= 3
  {
    EarlyEndIsTail(bytes);
    match CheckUtf8(bytes)
    case EndsEarly(at) => at
    case _ => |bytes|
  }

  lemma {:induction false} EarlyEndIsTail(bytes: seq<Byte>)
    ensures CheckUtf8(bytes).EndsEarly? ==> bytes[CheckUtf8(bytes).validUpTo..] == UnfinishedTail(bytes) != []
    ensures CheckUtf8(bytes).Valid? ==> UnfinishedTail(bytes) == []
  {
    hide NextUnit;
    if bytes != [] && NextUnit(bytes).Scalar? {
      var rest := bytes[UnitSize(bytes)..];
      EarlyEndIsTail(rest);
      if CheckUtf8(bytes).EndsEarly? {
        assert bytes[CheckUtf8(bytes).validUpTo..] == rest[CheckUtf8(rest).validUpTo..];
      }
    }
  }

  function Flatten(parts: seq<seq<Byte>>): seq<Byte> {
    if parts == [] then [] else parts[0] + Flatten(parts[1..])
  }

  /** The text `pipe_to_job` appends for these reads when `pending` bytes are waiting. */
  function Streamed(pending: seq<Byte>, parts: seq<seq<Byte>>): string
    decreases parts
  {
    if parts == [] then Lossy(pending)
    else
      var buf := pending + parts[0];
      var n := CompleteLen(buf);
      Lossy(buf[..n]) + Streamed(buf[n..], parts[1..])
  }

  // ----- decoding a concatenation -----

  /** The text of the finished units of `bytes`. */
  function Finished(bytes: seq<Byte>): string {
    if bytes == [] || NextUnit(bytes).Truncated? then []
    else [UnitChar(NextUnit(bytes))] + Finished(bytes[UnitSize(bytes)..])
  }

  /** Decoding can be resumed at the end of a buffer, from its unfinished tail. */
  lemma {:induction false} LossySplits(a: seq<Byte>, b: seq<Byte>)
    ensures Lossy(a + b) == Finished(a) + Lossy(UnfinishedTail(a) + b)
  {
    hide NextUnit;
    if a != [] && !NextUnit(a).Truncated? {
      var rest, c := a[UnitSize(a)..], [UnitChar(NextUnit(a))];
      UnitIgnoresSuffix(a, b);
      LossyUnit(a + b);
      LossySplits(rest, b);
      assert c + (Finished(rest) + Lossy(UnfinishedTail(rest) + b)) == Finished(a) + Lossy(UnfinishedTail(a) + b);
    }
  }

  lemma LossyUnit(bytes: seq<Byte>)
    requires bytes != []
    ensures Lossy(bytes) == [UnitChar(NextUnit(bytes))] + Lossy(bytes[UnitSize(bytes)..])
  {
  }

  lemma LossyAlone(a: seq<Byte>)
    ensures Lossy(a) == Finished(a) + if UnfinishedTail(a) == [] then "" else [REPLACEMENT]
  {
    hide NextUnit;
    LossySplits(a, []);
    assert a + [] == a && UnfinishedTail(a) + [] == UnfinishedTail(a);
    if UnfinishedTail(a) != [] {
      LossyUnit(UnfinishedTail(a));
    }
  }

  /** Some byte after the truncated unit `tail` carries that unit on. */
  predicate Continues(tail: seq<Byte>, more: seq<Byte>)
    requires tail != []
  {
    more != [] && (NextUnit(tail + more[..1]).Scalar? || NextUnit(tail + more[..1]).Truncated?)
  }

  lemma NotContinued(tail: seq<Byte>, more: seq<Byte>)
    requires tail != [] && NextUnit(tail).Truncated? && !Continues(tail, more)
    ensures Lossy(tail + more) == [REPLACEMENT] + Lossy(more)
  {
    if more == [] {
      assert tail + more == tail;
    } else {
      assert NextUnit(tail + more) == Malformed(|tail|);
      assert (tail + more)[|tail|..] == more;
    }
  }

  /** `k` continuation bytes on their own are `k` malformed units. */
  lemma {:induction false} LoneContinuations(bytes: seq<Byte>, k: nat)
    requires k <= |bytes| && forall i :: 0 <= i < k ==> IsContinuation(bytes[i])
    ensures |Lossy(bytes)| == k + |Lossy(bytes[k..])|
  {
    if k > 0 {
      assert NextUnit(bytes) == Malformed(1);
      LoneContinuations(bytes[1..], k - 1);
      assert bytes[1..][k - 1..] == bytes[k..];
    }
  }

  lemma ContinuedIsShorter(tail: seq<Byte>, more: seq<Byte>)
    requires tail != [] && NextUnit(tail).Truncated? && Continues(tail, more)
    ensures |Lossy(tail + more)| < 1 + |Lossy(more)|
  {
    var whole := tail + more;
    var n := UnitSize(whole);
    AbsorbedBytes(tail, more);
    LoneContinuations(more, n - |tail|);
    LossyUnit(whole);
    hide *;
    assert whole[n..] == more[n - |tail|..];
  }

  lemma AbsorbedBytes(tail: seq<Byte>, more: seq<Byte>)
    requires tail != [] && NextUnit(tail).Truncated? && Continues(tail, more)
    ensures UnitSize(tail + more) > |tail|
    ensures forall i :: 0 <= i < UnitSize(tail + more) - |tail| ==> IsContinuation(more[i])
  {
    var whole := tail + more;
    assert whole[|tail|] == more[0] == (tail + more[..1])[|tail|];
    forall i | 0 <= i < UnitSize(whole) - |tail| ensures IsContinuation(more[i]) {
      assert more[i] == whole[|tail| + i];
    }
  }

  // ----- one read -----

  /** The fault of one read: its buffer holds a malformed unit, so nothing is held back,
      and the unit it then ends inside is carried on by what follows. */
  predicate CutsAfterMalformed(buf: seq<Byte>, more: seq<Byte>) {
    CheckUtf8(buf).Broken? && UnfinishedTail(buf) != [] && Continues(UnfinishedTail(buf), more)
  }

  lemma {:induction false} ValidPrefix(bytes: seq<Byte>)
    requires CheckUtf8(bytes).EndsEarly?
    ensures UnfinishedTail(bytes[..CheckUtf8(bytes).validUpTo]) == []
  {
    hide NextUnit;
    if NextUnit(bytes).Scalar? {
      var n := UnitSize(bytes);
      var at := CheckUtf8(bytes).validUpTo;
      ValidPrefix(bytes[n..]);
      assert bytes[..at][n..] == bytes[n..][..at - n];
      ScalarInPrefix(bytes, at);
    }
  }

  lemma ScalarInPrefix(bytes: seq<Byte>, at: nat)
    requires bytes != [] && NextUnit(bytes).Scalar? && UnitSize(bytes) <= at <= |bytes|
    ensures NextUnit(bytes[..at]) == NextUnit(bytes)
  {
  }

  lemma SplitsBetweenUnits(a: seq<Byte>, b: seq<Byte>)
    requires UnfinishedTail(a) == []
    ensures Lossy(a + b) == Lossy(a) + Lossy(b)
  {
    hide NextUnit, Lossy, Finished, UnfinishedTail;
    LossyAlone(a);
    LossySplits(a, b);
    assert [] + b == b;
  }

  lemma HeldBack(buf: seq<Byte>, more: seq<Byte>)
    requires CheckUtf8(buf).EndsEarly?
    ensures var n := CompleteLen(buf); Lossy(buf + more) == Lossy(buf[..n]) + Lossy(buf[n..] + more)
  {
    hide NextUnit, Lossy, UnfinishedTail;
    var n := CompleteLen(buf);
    ValidPrefix(buf);
    SplitsBetweenUnits(buf[..n], buf[n..] + more);
    assert buf[..n] + (buf[n..] + more) == buf + more;
  }

  lemma NothingHeldBack(buf: seq<Byte>, more: seq<Byte>)
    requires !CheckUtf8(buf).EndsEarly?
    ensures !CutsAfterMalformed(buf, more) ==> Lossy(buf + more) == Lossy(buf) + Lossy(more)
    ensures CutsAfterMalformed(buf, more) ==> |Lossy(buf + more)| < |Lossy(buf)| + |Lossy(more)|
  {
    hide NextUnit, Lossy, Finished, UnfinishedTail;
    EarlyEndIsTail(buf);
    LossyAlone(buf);
    LossySplits(buf, more);
    var tail := UnfinishedTail(buf);
    if tail == [] {
      assert tail + more == more;
    } else if Continues(tail, more) {
      ContinuedIsShorter(tail, more);
    } else {
      NotContinued(tail, more);
    }
  }

  // ----- whole streams -----

  /** No read of the stream commits that fault. */
  predicate CleanCuts(pending: seq<Byte>, parts: seq<seq<Byte>>)
    decreases parts
  {
    parts == []
    || (var buf := pending + parts[0];
        !CutsAfterMalformed(buf, Flatten(parts[1..])) && CleanCuts(buf[CompleteLen(buf)..], parts[1..]))
  }

  lemma {:induction false} StreamedLength(pending: seq<Byte>, parts: seq<seq<Byte>>)
    ensures CleanCuts(pending, parts) ==> Streamed(pending, parts) == Lossy(pending + Flatten(parts))
    ensures !CleanCuts(pending, parts) ==> |Streamed(pending, parts)| > |Lossy(pending + Flatten(parts))|
    decreases parts
  {
    hide NextUnit, Lossy, CutsAfterMalformed, CompleteLen;
    if parts == [] {
      assert pending + Flatten(parts) == pending;
    } else {
      var buf := pending + parts[0];
      var more := Flatten(parts[1..]);
      var n := CompleteLen(buf);
      assert pending + Flatten(parts) == buf + more;
      StreamedLength(buf[n..], parts[1..]);
      ReadStep(buf, more);
    }
  }

  lemma ReadStep(buf: seq<Byte>, more: seq<Byte>)
    ensures var n := CompleteLen(buf);
            !CutsAfterMalformed(buf, more) ==> Lossy(buf + more) == Lossy(buf[..n]) + Lossy(buf[n..] + more)
    ensures var n := CompleteLen(buf);
            CutsAfterMalformed(buf, more) ==> |Lossy(buf + more)| < |Lossy(buf[..n])| + |Lossy(buf[n..] + more)|
  {
    hide NextUnit, Lossy;
    if CheckUtf8(buf).EndsEarly? {
      HeldBack(buf, more);
    } else {
      NothingHeldBack(buf, more);
      var n := CompleteLen(buf);
      assert buf[..n] == buf && buf[n..] + more == more;
    }
  }

  /** Streaming decode gives the lossy decoding of the whole stream exactly when no read
      cuts a character after a malformed byte of the same buffer; for every stream and
      every split into reads. */
  lemma {:induction false} StreamingDecode(parts: seq<seq<Byte>>)
    ensures Streamed([], parts) == Lossy(Flatten(parts)) <==> CleanCuts([], parts)
  {
    hide *;
    StreamedLength([], parts);
    assert [] + Flatten(parts) == Flatten(parts);
  }

  /** A stream without malformed units never commits the fault. */
  lemma {:induction false} UnbrokenIsClean(pending: seq<Byte>, parts: seq<seq<Byte>>)
    requires !CheckUtf8(pending + Flatten(parts)).Broken?
    ensures CleanCuts(pending, parts)
    decreases parts
  {
    hide NextUnit, CheckUtf8;
    if parts != [] {
      var buf := pending + parts[0];
      assert pending + Flatten(parts) == buf + Flatten(parts[1..]);
      UnbrokenPrefix(buf, Flatten(parts[1..]));
      UnbrokenIsClean(buf[CompleteLen(buf)..], parts[1..]);
    }
  }

  lemma {:induction false} UnbrokenPrefix(a: seq<Byte>, b: seq<Byte>)
    requires !CheckUtf8(a + b).Broken?
    ensures !CheckUtf8(a).Broken? && !CheckUtf8(a[CompleteLen(a)..] + b).Broken?
  {
    hide *;
    if a == [] || NextUnit(a).Truncated? {
      NothingComplete(a, b);
    } else {
      UnitBehind(a, b);
      UnbrokenPrefix(a[UnitSize(a)..], b);
      UnitInFront(a);
    }
  }

  lemma NothingComplete(a: seq<Byte>, b: seq<Byte>)
    requires a == [] || NextUnit(a).Truncated?
    ensures !CheckUtf8(a).Broken? && a[CompleteLen(a)..] + b == a + b
  {
    hide NextUnit;
  }

  lemma UnitBehind(a: seq<Byte>, b: seq<Byte>)
    requires a != [] && !NextUnit(a).Truncated? && !CheckUtf8(a + b).Broken?
    ensures NextUnit(a).Scalar? && !CheckUtf8(a[UnitSize(a)..] + b).Broken?
  {
    hide NextUnit;
    UnitIgnoresSuffix(a, b);
    assert (a + b)[UnitSize(a)..] == a[UnitSize(a)..] + b;
  }

  lemma UnitInFront(a: seq<Byte>)
    requires a != [] && NextUnit(a).Scalar? && !CheckUtf8(a[UnitSize(a)..]).Broken?
    ensures var more := a[UnitSize(a)..];
            !CheckUtf8(a).Broken? && a[CompleteLen(a)..] == more[CompleteLen(more)..]
  {
    hide NextUnit;
  }

  /** Text that arrives whole, in any split, is appended unchanged; and so is text followed by
      the beginning of one more character, which becomes a single replacement character. */
  lemma {:induction false} StreamedText(text: string, cut: seq<Byte>, parts: seq<seq<Byte>>)
    requires Flatten(parts) == Encode(text) + cut
    requires cut == [] || NextUnit(cut).Truncated?
    ensures Streamed([], parts) == text + if cut == [] then "" else [REPLACEMENT]
  {
    hide NextUnit;
    CheckOfEncodeThen(text, cut);
    assert [] + Flatten(parts) == Flatten(parts);
    UnbrokenIsClean([], parts);
    StreamingDecode(parts);
    LossyOfEncode(text, cut);
    if cut != [] {
      NotContinued(cut, []);
      assert cut + [] == cut;
    }
  }

  lemma {:induction false} CheckOfEncodeThen(text: string, cut: seq<Byte>)
    requires cut == [] || NextUnit(cut).Truncated?
    ensures !CheckUtf8(Encode(text) + cut).Broken?
  {
    hide NextUnit, EncodeChar;
    if text == [] {
      assert Encode(text) + cut == cut;
    } else {
      assert Encode(text) + cut == EncodeChar(text[0]) + (Encode(text[1..]) + cut);
      CheckOfEncodeThen(text[1..], cut);
      hide *;
      CheckBehind(text[0], Encode(text[1..]) + cut);
    }
  }

  lemma CheckBehind(c: char, more: seq<Byte>)
    requires !CheckUtf8(more).Broken?
    ensures !CheckUtf8(EncodeChar(c) + more).Broken?
  {
    hide NextUnit, EncodeChar;
    EncodedUnit(c, more);
  }

  /** The stream FF E2 82 AC decodes to U+FFFD and the euro sign at once, but to four U+FFFD
      when a read ends after E2: FF makes the check report a malformed unit, so E2 is not
      held back. */
  lemma MixedReadLosesACharacter()
    ensures Lossy([0xFF, 0xE2, 0x82, 0xAC]) == [REPLACEMENT, '\U{20AC}']
    ensures Streamed([], [[0xFF, 0xE2], [0x82, 0xAC]]) == [REPLACEMENT, REPLACEMENT, REPLACEMENT, REPLACEMENT]
  {
    MixedAtOnce();
    MixedReadByRead();
  }

  lemma MixedAtOnce()
    ensures Lossy([0xFF, 0xE2, 0x82, 0xAC]) == [REPLACEMENT, '\U{20AC}']
  {
    LossyUnit([0xFF, 0xE2, 0x82, 0xAC]);
    assert [0xFF, 0xE2, 0x82, 0xAC][1..] == [0xE2, 0x82, 0xAC];
    LossyUnit([0xE2, 0x82, 0xAC]);
  }

  lemma MixedReadByRead()
    ensures Streamed([], [[0xFF, 0xE2], [0x82, 0xAC]]) == [REPLACEMENT, REPLACEMENT, REPLACEMENT, REPLACEMENT]
  {
    var first: seq<Byte>, second: seq<Byte> := [0xFF, 0xE2], [0x82, 0xAC];
    LossyPair(first);
    LossyPair(second);
    hide NextUnit, CompleteLen, CheckUtf8, Lossy;
    StreamedPair(first, second);
  }

  /** Two bytes of which the first is malformed are decoded to two replacement characters, all
      at once. */
  lemma LossyPair(bytes: seq<Byte>)
    requires bytes == [0xFF, 0xE2] || bytes == [0x82, 0xAC]
    ensures Lossy(bytes) == [REPLACEMENT, REPLACEMENT] && CompleteLen(bytes) == 2
  {
    LossyUnit(bytes);
    assert bytes[1..] == [bytes[1]];
    LossyUnit(bytes[1..]);
    assert bytes[1..][1..] == [];
  }

  lemma StreamedPair(first: seq<Byte>, second: seq<Byte>)
    requires CompleteLen(first) == |first| && CompleteLen(second) == |second|
    ensures Streamed([], [first, second]) == Lossy(first) + (Lossy(second) + Streamed([], []))
    ensures Streamed([], []) == []
  {
    assert Lossy([]) == [];
    hide CompleteLen, Lossy;
    assert [] + first == first && first[..|first|] == first && first[|first|..] == [];
    assert [] + second == second && second[..|second|] == second && second[|second|..] == [];
    assert [first, second][1..] == [second] && [second][1..] == [];
  }

  // ----- the reader task -----

  /** One `read` of the pipe: bytes (none at end of file) or an error. */
  datatype Read = Data(bytes: seq<Byte>) | Failed

  /** The reads before end of file or an error. */
  function Delivered(script: seq<Read>): (parts: seq<seq<Byte>>) {
    if script == [] || script[0].Failed? || script[0].bytes == [] then []
    else [script[0].bytes] + Delivered(script[1..])
  }

  /** One turn of the reader's loop. */
  lemma OneRead(pending: seq<Byte>, script: seq<Read>)
    requires script != [] && script[0].Data? && script[0].bytes != []
    ensures var buf := pending + script[0].bytes;
            var n := CompleteLen(buf);
            Streamed(pending, Delivered(script)) == Lossy(buf[..n]) + Streamed(buf[n..], Delivered(script[1..]))
  {
    hide NextUnit, Lossy, CompleteLen;
    assert Delivered(script)[1..] == Delivered(script[1..]);
  }

  method PipeToJob(script: seq<Read>, job: JobBuffer)
    requires job.Valid()
    modifies job
    ensures job.Valid() && job.written == old(job.written) + Streamed([], Delivered(script))
  {
    hide NextUnit, Lossy, CompleteLen, Streamed, Delivered, Appended;
    var pending: seq<Byte> := [];
    var i := 0;
    ghost var target := old(job.written) + Streamed([], Delivered(script));
    assert script[0..] == script;
    while i < |script| && script[i].Data? && script[i].bytes != []
      invariant 0 <= i <= |script| && job.Valid() && |pending| <= 3
      invariant job.written + Streamed(pending, Delivered(script[i..])) == target
    {
      OneRead(pending, script[i..]);
      assert script[i..][1..] == script[i + 1..];
      pending := pending + script[i].bytes;
      var complete := CompleteLen(pending);
      job.AppendOutput(Lossy(pending[..complete]));
      pending := pending[complete..];
      i := i + 1;
    }
    NoMoreReads(pending, script[i..]);
    if pending != [] {
      job.AppendOutput(Lossy(pending));
    }
  }

  lemma NoMoreReads(pending: seq<Byte>, script: seq<Read>)
    requires script == [] || script[0].Failed? || script[0].bytes == []
    ensures Streamed(pending, Delivered(script)) == Lossy(pending)
    ensures Lossy([]) == []
  {
  }

  function Reads(parts: seq<seq<Byte>>): seq<Read> {
    if parts == [] then [] else [Data(parts[0])] + Reads(parts[1..])
  }

  /** All reads up to the first that is empty or fails are delivered, and none behind it. */
  lemma {:induction false} DeliveredUpTo(parts: seq<seq<Byte>>, rest: seq<Read>)
    requires forall i :: 0 <= i < |parts| ==> parts[i] != []
    requires rest == [] || rest[0].Failed? || rest[0].bytes == []
    ensures Delivered(Reads(parts) + rest) == parts
  {
    hide *;
    if parts == [] {
      NothingDelivered(rest);
    } else {
      DeliveredUpTo(parts[1..], rest);
      OneDelivered(parts, rest);
    }
  }

  lemma NothingDelivered(rest: seq<Read>)
    requires rest == [] || rest[0].Failed? || rest[0].bytes == []
    ensures Delivered(Reads([]) + rest) == []
  {
    assert Reads([]) + rest == rest;
  }

  lemma OneDelivered(parts: seq<seq<Byte>>, rest: seq<Read>)
    requires parts != [] && parts[0] != []
    ensures Delivered(Reads(parts) + rest) == [parts[0]] + Delivered(Reads(parts[1..]) + rest)
  {
    assert (Reads(parts) + rest)[1..] == Reads(parts[1..]) + rest;
  }

  /** Text that a process writes arrives in its job's output however the reads cut it, whatever ends
      them: all of it, and one replacement character for a last character it was cut off in. */
  lemma {:induction false} TextArrives(text: string, cut: seq<Byte>, parts: seq<seq<Byte>>, rest: seq<Read>)
    requires Flatten(parts) == Encode(text) + cut && (cut == [] || NextUnit(cut).Truncated?)
    requires forall i :: 0 <= i < |parts| ==> parts[i] != []
    requires rest == [] || rest[0].Failed? || rest[0].bytes == []
    ensures Streamed([], Delivered(Reads(parts) + rest)) == text + if cut == [] then "" else [REPLACEMENT]
  {
    hide *;
    DeliveredUpTo(parts, rest);
    StreamedText(text, cut, parts);
  }
}
