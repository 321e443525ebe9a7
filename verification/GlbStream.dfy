/** The streaming check on an uploaded GLB and the whole-file check it has to agree with. */
module GlbStream {
  import opened Outcomes
  import opened Chunks

  type Byte = b: int | 0 <= b < 256
  type Bytes = seq<Byte>

  datatype Verdict = Valid | Truncated | HeaderInvalid | SizeMismatch

  const HEADER_BYTES := 12
  const MAGIC: Bytes := [0x67, 0x6C, 0x54, 0x46]
  const MEBIBYTE := 1024 * 1024

  // ----- the header, section 4.4.2 of the glTF 2.0 specification

  /** The little-endian unsigned 32-bit integer at offset `at`. */
  function U32(b: Bytes, at: nat): nat
    requires at + 4 <= |b|
  {
    b[at] as int + 0x100 * b[at + 1] as int + 0x1_0000 * b[at + 2] as int + 0x100_0000 * b[at + 3] as int
  }

  predicate HeaderDeclares(header: Bytes, length: int)
    requires |header| >= HEADER_BYTES
  {
    header[..4] == MAGIC && U32(header, 4) == 2 && U32(header, 8) == length
  }

  /** The check on a complete file: the declared length is the file's own. */
  function VerifyGlb(file: Bytes): Verdict {
    if |file| < HEADER_BYTES then Truncated
    else if !HeaderDeclares(file, |file|) then HeaderInvalid
    else Valid
  }

  /** What a stream carrying `data` must report when `expected` bytes were announced. */
  function StreamVerdict(data: Bytes, expected: int): Verdict {
    if |data| < HEADER_BYTES then Truncated
    else if !HeaderDeclares(data, expected) then HeaderInvalid
    else if |data| != expected then SizeMismatch
    else Valid
  }

  // ----- the same in bytes

  function LittleEndian(n: nat): (b: Bytes)
    requires n < 0x1_0000_0000
    ensures |b| == 4
  {
    [n % 0x100, n / 0x100 % 0x100, n / 0x1_0000 % 0x100, n / 0x100_0000]
  }

  lemma QuotientOfDigits(low: nat, high: nat)
    requires low < 0x100
    ensures (low + 0x100 * high) / 0x100 == high && (low + 0x100 * high) % 0x100 == low
  {
  }

  /** U32 reads exactly what LittleEndian writes. */
  lemma U32InvertsLittleEndian(b: Bytes, at: nat, n: nat)
    requires at + 4 <= |b| && n < 0x1_0000_0000
    ensures U32(b, at) == n <==> b[at..at + 4] == LittleEndian(n)
  {
    var d0, d1, d2, d3 := b[at] as int, b[at + 1] as int, b[at + 2] as int, b[at + 3] as int;
    var m := U32(b, at);
    QuotientOfDigits(d0, d1 + 0x100 * (d2 + 0x100 * d3));
    QuotientOfDigits(d1, d2 + 0x100 * d3);
    QuotientOfDigits(d2, d3);
    assert m / 0x100 == d1 + 0x100 * (d2 + 0x100 * d3);
    assert m / 0x1_0000 == d2 + 0x100 * d3 && m / 0x100_0000 == d3;
    assert b[at..at + 4] == [b[at], b[at + 1], b[at + 2], b[at + 3]];
    if U32(b, at) == n {
      assert LittleEndian(n) == b[at..at + 4];
    } else if b[at..at + 4] == LittleEndian(n) {
      DigitsOf(n);
      assert false;
    }
  }

  lemma DigitsOf(n: nat)
    ensures n == n % 0x100 + 0x100 * (n / 0x100 % 0x100) + 0x1_0000 * (n / 0x1_0000 % 0x100)
              + 0x100_0000 * (n / 0x100_0000)
  {
    assert n / 0x1_0000 == n / 0x100 / 0x100 && n / 0x100_0000 == n / 0x1_0000 / 0x100;
  }

  /** A header announces `length` exactly when its twelve bytes are "glTF", version 2 and that length. */
  lemma HeaderInBytes(header: Bytes, length: int)
    requires |header| >= 12
    ensures HeaderDeclares(header, length) <==>
              && 0 <= length < 0x1_0000_0000
              && header[..12] == [0x67, 0x6C, 0x54, 0x46, 2, 0, 0, 0] + LittleEndian(length)
  {
    var name, version, size := header[..4], header[4..8], header[8..12];
    assert header[..12] == name + version + size;
    assert U32(header, 8) < 0x1_0000_0000;
    U32InvertsLittleEndian(header, 4, 2);
    assert LittleEndian(2) == [2, 0, 0, 0];
    if 0 <= length < 0x1_0000_0000 {
      U32InvertsLittleEndian(header, 8, length);
      hide U32, LittleEndian;
      var expected: Bytes := [0x67, 0x6C, 0x54, 0x46] + [2, 0, 0, 0] + LittleEndian(length);
      assert expected == [0x67, 0x6C, 0x54, 0x46, 2, 0, 0, 0] + LittleEndian(length);
      if header[..12] == expected {
        assert name == expected[..4] && version == expected[4..8] && size == expected[8..12];
      }
    }
  }

  /** The verdict on a complete file, byte for byte. */
  lemma VerdictInBytes(file: Bytes)
    ensures VerifyGlb(file) == Truncated <==> |file| < 12
    ensures VerifyGlb(file) == Valid <==>
              && 12 <= |file| < 0x1_0000_0000
              && file[..12] == [0x67, 0x6C, 0x54, 0x46, 2, 0, 0, 0] + LittleEndian(|file|)
    ensures VerifyGlb(file) != SizeMismatch
  {
    if |file| >= 12 {
      HeaderInBytes(file, |file|);
    }
    hide HeaderDeclares;
  }

  /** And on a stream, for which `expected` bytes were announced. */
  lemma StreamVerdictInBytes(data: Bytes, expected: int)
    ensures StreamVerdict(data, expected) == Truncated <==> |data| < 12
    ensures StreamVerdict(data, expected) in {Valid, SizeMismatch} <==>
              && |data| >= 12 && 0 <= expected < 0x1_0000_0000
              && data[..12] == [0x67, 0x6C, 0x54, 0x46, 2, 0, 0, 0] + LittleEndian(expected)
    ensures StreamVerdict(data, expected) == Valid ==> |data| == expected
    ensures StreamVerdict(data, expected) == SizeMismatch ==> |data| != expected
  {
    if |data| >= 12 {
      HeaderInBytes(data, expected);
    }
    hide HeaderDeclares;
  }

  // ----- chunk lists

  function NonEmpty(chunks: seq<Bytes>): seq<Bytes> {
    if chunks == [] then []
    else if chunks[0] == [] then NonEmpty(chunks[1..])
    else [chunks[0]] + NonEmpty(chunks[1..])
  }

  lemma {:induction false} NonEmptyAppend(a: seq<Bytes>, b: seq<Bytes>)
    ensures NonEmpty(a + b) == NonEmpty(a) + NonEmpty(b)
  {
    if a == [] {
      assert a + b == b;
    } else {
      assert (a + b)[1..] == a[1..] + b;
      NonEmptyAppend(a[1..], b);
    }
  }

  lemma {:induction false} NonEmptySameBytes(chunks: seq<Bytes>)
    ensures Concat(NonEmpty(chunks)) == Concat(chunks)
  {
    if chunks != [] {
      var first, rest := chunks[0], chunks[1..];
      NonEmptySameBytes(rest);
      if first == [] {
        assert Concat(chunks) == Concat(rest);
      } else {
        ConcatAppend([first], NonEmpty(rest));
        assert Concat([first]) == first;
      }
    }
  }

  /** One more chunk taken from the source. */
  lemma TakeOne(chunks: seq<Bytes>, i: nat)
    requires i < |chunks|
    ensures Concat(chunks[..i + 1]) == Concat(chunks[..i]) + chunks[i]
    ensures NonEmpty(chunks[..i + 1]) == NonEmpty(chunks[..i]) + (if chunks[i] == [] then [] else [chunks[i]])
  {
    assert chunks[..i + 1] == chunks[..i] + [chunks[i]];
    ConcatAppend(chunks[..i], [chunks[i]]);
    NonEmptyAppend(chunks[..i], [chunks[i]]);
    assert Concat([chunks[i]]) == chunks[i] + Concat([]);
  }

  lemma TakenIsPrefix(chunks: seq<Bytes>, i: nat)
    requires i <= |chunks|
    ensures Concat(chunks) == Concat(chunks[..i]) + Concat(chunks[i..])
    ensures Concat(chunks[..i]) <= Concat(chunks)
  {
    assert chunks == chunks[..i] + chunks[i..];
    ConcatAppend(chunks[..i], chunks[i..]);
  }

  function Clip(data: Bytes): Bytes {
    if |data| <= HEADER_BYTES then data else data[..HEADER_BYTES]
  }

  lemma ClipAppend(data: Bytes, chunk: Bytes)
    requires |data| < HEADER_BYTES
    ensures var room := HEADER_BYTES - |data|;
            Clip(data + chunk) == Clip(data) + if |chunk| <= room then chunk else chunk[..room]
  {
  }

  lemma PrefixesAreComparable(a: Bytes, b: Bytes, whole: Bytes)
    requires a <= whole && b <= whole
    ensures a <= b || b <= a
    ensures |a| == |b| ==> a == b
  {
  }

  // ----- the transducer

  /** `window` chunks are the fewest that carry a whole header. */
  ghost predicate IsWindow(chunks: seq<Bytes>, window: nat) {
    && 0 < window <= |chunks|
    && |Concat(chunks[..window])| >= HEADER_BYTES
    && |Concat(chunks[..window - 1])| < HEADER_BYTES
  }

  /** With the header window passed, the first `n` chunks leave; with a window that is already too long, none. */
  ghost predicate EmitsUpTo(chunks: seq<Bytes>, expected: int, emitted: seq<Bytes>, window: nat, n: nat) {
    && IsWindow(chunks, window)
    && window <= n <= |chunks|
    && if |Concat(chunks[..window])| > expected then
         emitted == []
       else
         && emitted == NonEmpty(chunks[..n])
         && |Concat(chunks[..n])| <= expected
         && (n < |chunks| ==> |Concat(chunks[..n + 1])| > expected)
  }

  /** The chunks that leave the generator: none before the header window has passed its checks,
      then every non-empty chunk up to the first one that would exceed the announced size. */
  ghost predicate Emits(chunks: seq<Bytes>, expected: int, emitted: seq<Bytes>) {
    var data := Concat(chunks);
    if |data| < HEADER_BYTES || !HeaderDeclares(data, expected) then
      emitted == []
    else
      exists window: nat, n: nat :: EmitsUpTo(chunks, expected, emitted, window, n)
  }

  /** The generator run to its end, with what it yielded and how it ended. */
  method ValidatedGlbStream(chunks: seq<Bytes>, expectedSize: int)
    returns (emitted: seq<Bytes>, verdict: Verdict)
    ensures verdict == StreamVerdict(Concat(chunks), expectedSize)
    ensures Emits(chunks, expectedSize, emitted)
  {
    emitted := [];
    var prefix: Bytes := [];
    var pending: seq<Bytes> := [];
    var total := 0;
    var i := 0;
    while |prefix| < HEADER_BYTES && i < |chunks|
      invariant i <= |chunks|
      invariant total == |Concat(chunks[..i])|
      invariant pending == NonEmpty(chunks[..i])
      invariant prefix == Clip(Concat(chunks[..i]))
      invariant |prefix| == HEADER_BYTES ==> IsWindow(chunks, i)
    {
      var chunk := chunks[i];
      TakeOne(chunks, i);
      ClipAppend(Concat(chunks[..i]), chunk);
      i := i + 1;
      if chunk == [] {
        continue;
      }
      pending := pending + [chunk];
      total := total + |chunk|;
      var room := HEADER_BYTES - |prefix|;
      prefix := prefix + if |chunk| <= room then chunk else chunk[..room];
    }
    TakenIsPrefix(chunks, i);
    if |prefix| < HEADER_BYTES {
      assert chunks[..i] == chunks;
      return [], Truncated;
    }
    assert prefix == Concat(chunks)[..HEADER_BYTES];
    if !HeaderDeclares(prefix, expectedSize) {
      return [], HeaderInvalid;
    }
    ghost var window := i;
    if total > expectedSize {
      assert EmitsUpTo(chunks, expectedSize, [], window, window);
      return [], SizeMismatch;
    }
    emitted := pending;
    while i < |chunks|
      invariant window <= i <= |chunks|
      invariant total == |Concat(chunks[..i])| <= expectedSize
      invariant emitted == NonEmpty(chunks[..i])
    {
      var chunk := chunks[i];
      TakeOne(chunks, i);
      if chunk != [] {
        total := total + |chunk|;
        if total > expectedSize {
          TakenIsPrefix(chunks, i + 1);
          assert EmitsUpTo(chunks, expectedSize, emitted, window, i);
          return emitted, SizeMismatch;
        }
        emitted := emitted + [chunk];
      }
      i := i + 1;
    }
    assert chunks[..i] == chunks;
    assert EmitsUpTo(chunks, expectedSize, emitted, window, i);
    verdict := if total != expectedSize then SizeMismatch else Valid;
  }

  // ----- what the stream guarantees

  /** The stream finishes exactly on the files the whole-file check accepts at that size. */
  lemma StreamAcceptsExactlyVerifiedFiles(chunks: seq<Bytes>, expected: int)
    ensures StreamVerdict(Concat(chunks), expected) == Valid
       <==> VerifyGlb(Concat(chunks)) == Valid && |Concat(chunks)| == expected
    ensures |Concat(chunks)| == expected ==> StreamVerdict(Concat(chunks), expected) == VerifyGlb(Concat(chunks))
  {
  }

  /** Whatever was yielded is a prefix of the input within the announced size; nothing precedes a valid
      header, and a run that finishes has forwarded every byte. */
  lemma EmittedIsBoundedPrefix(chunks: seq<Bytes>, expected: int, emitted: seq<Bytes>)
    requires Emits(chunks, expected, emitted)
    ensures Concat(emitted) <= Concat(chunks)
    ensures emitted != [] ==> |Concat(emitted)| <= expected
    ensures emitted != [] ==>
              |Concat(chunks)| >= HEADER_BYTES && HeaderDeclares(Concat(chunks), expected) &&
              |Concat(emitted)| >= HEADER_BYTES
    ensures HEADER_BYTES <= |Concat(chunks)| <= expected && HeaderDeclares(Concat(chunks), expected) ==>
              Concat(emitted) == Concat(chunks)
    ensures StreamVerdict(Concat(chunks), expected) == Valid ==> Concat(emitted) == Concat(chunks)
  {
    var data := Concat(chunks);
    assert Concat<Byte>([]) == [];
    hide Concat, NonEmpty, HeaderDeclares, IsWindow;
    if |data| >= HEADER_BYTES && HeaderDeclares(data, expected) {
      var window: nat, n: nat :| EmitsUpTo(chunks, expected, emitted, window, n);
      WindowIsPrefix(chunks, window);
      if |Concat(chunks[..window])| <= expected {
        EmittedIsPrefixUpTo(chunks, expected, emitted, window, n);
      }
    }
  }

  lemma WindowIsPrefix(chunks: seq<Bytes>, window: nat)
    requires IsWindow(chunks, window)
    ensures HEADER_BYTES <= |Concat(chunks[..window])| <= |Concat(chunks)|
  {
    TakenIsPrefix(chunks, window);
  }

  lemma EmittedIsPrefixUpTo(chunks: seq<Bytes>, expected: int, emitted: seq<Bytes>, window: nat, n: nat)
    requires EmitsUpTo(chunks, expected, emitted, window, n) && |Concat(chunks[..window])| <= expected
    ensures Concat(emitted) <= Concat(chunks) && HEADER_BYTES <= |Concat(emitted)| <= expected
    ensures |Concat(chunks)| <= expected ==> Concat(emitted) == Concat(chunks)
  {
    WindowIsPrefix(chunks, window);
    NonEmptySameBytes(chunks[..n]);
    TakenIsPrefix(chunks, n);
    TakenIsPrefix(chunks[..n], window);
    assert chunks[..n][..window] == chunks[..window];
    hide Concat, NonEmpty, IsWindow;
    if n < |chunks| {
      TakenIsPrefix(chunks, n + 1);
    } else {
      assert chunks[..n] == chunks;
    }
  }

  /** Two chunkings of the same bytes end the same way, and what they yield can differ only in how far it got:
      a run that finishes always yields the same bytes. */
  lemma ChunkingDoesNotMatter(a: seq<Bytes>, b: seq<Bytes>, expected: int, fromA: seq<Bytes>, fromB: seq<Bytes>)
    requires Concat(a) == Concat(b)
    requires Emits(a, expected, fromA) && Emits(b, expected, fromB)
    ensures StreamVerdict(Concat(a), expected) == StreamVerdict(Concat(b), expected)
    ensures Concat(fromA) <= Concat(fromB) || Concat(fromB) <= Concat(fromA)
    ensures StreamVerdict(Concat(a), expected) == Valid ==> Concat(fromA) == Concat(fromB)
  {
    hide *;
    EmittedIsBoundedPrefix(a, expected, fromA);
    EmittedIsBoundedPrefix(b, expected, fromB);
    PrefixesAreComparable(Concat(fromA), Concat(fromB), Concat(a));
  }

  // ----- the publish call that consumes the stream

  datatype Capability = Capability(projectId: string, assetId: string, alreadyCompleted: bool,
    uploadUrl: Option<string>)
  datatype Confirmation = Confirmation(projectId: string, assetId: string, status: string)
  datatype Published = Published(projectId: string, assetId: string, status: string)
  datatype PublishError = Contract | Configuration | Unavailable | Remote

  /** The control plane's answers; None stands for any refused, failed or malformed call. */
  datatype Answers = Answers(upload: Option<Capability>, urlAllowed: bool, putAccepted: bool,
    confirm: Option<Confirmation>)

  datatype Request =
    | OutputUpload
    | Put(announced: int, body: Bytes)
    | OutputConfirm(assetId: string, size: int)

  /** A confirmation is only ever the last of the three requests, and the body stored before it is a GLB of
      exactly the confirmed size, whose header says so. */
  predicate ConfirmsOnlyVerifiedBodies(log: seq<Request>, maxBytes: int) {
    forall i :: 0 <= i < |log| && log[i].OutputConfirm? ==>
      && i == |log| - 1 == 2
      && log[0].OutputUpload?
      && log[1].Put?
      && log[1].announced == |log[1].body| == log[i].size <= maxBytes
      && VerifyGlb(log[1].body) == Valid
  }

  function MaxOutput(maxOutputSizeMb: int): int {
    MEBIBYTE * if maxOutputSizeMb < 1 then 1 else maxOutputSizeMb
  }

  /** The limit is the configured number of mebibytes, and at least one. */
  lemma MaxOutputIs(maxOutputSizeMb: int)
    ensures maxOutputSizeMb >= 1 ==> MaxOutput(maxOutputSizeMb) == 1_048_576 * maxOutputSizeMb
    ensures maxOutputSizeMb < 1 ==> MaxOutput(maxOutputSizeMb) == 1_048_576
  {
  }

  /** The call succeeds: the size is within bounds, the capability is for the project, and the control plane either has
      the output already or receives, over an allowed address, a GLB of that size and confirms it. */
  predicate Succeeds(expectedProjectId: string, size: int, maxOutputSizeMb: int, data: Bytes, answers: Answers) {
    && HEADER_BYTES <= size <= MaxOutput(maxOutputSizeMb)
    && answers.upload.Some? && answers.upload.value.projectId == expectedProjectId
    && (answers.upload.value.alreadyCompleted || Receives(size, data, answers, answers.upload.value))
  }

  /** The control plane names an address for this project's output. */
  predicate Addressed(expectedProjectId: string, size: int, maxOutputSizeMb: int, answers: Answers) {
    && HEADER_BYTES <= size <= MaxOutput(maxOutputSizeMb)
    && answers.upload.Some? && answers.upload.value.projectId == expectedProjectId
    && !answers.upload.value.alreadyCompleted
    && answers.upload.value.uploadUrl.Some? && answers.upload.value.uploadUrl.value != ""
  }

  predicate Receives(size: int, data: Bytes, answers: Answers, upload: Capability) {
    && upload.uploadUrl.Some? && upload.uploadUrl.value != "" && answers.urlAllowed
    && StreamVerdict(data, size) == Valid && answers.putAccepted
    && answers.confirm.Some?
    && answers.confirm.value.projectId == upload.projectId && answers.confirm.value.assetId == upload.assetId
  }

  method PublishGlb(expectedProjectId: string, size: int, maxOutputSizeMb: int, chunks: seq<Bytes>, answers: Answers)
    returns (r: Result<Published, PublishError>, log: seq<Request>)
    ensures r.Ok? <==> Succeeds(expectedProjectId, size, maxOutputSizeMb, Concat(chunks), answers)
    ensures ConfirmsOnlyVerifiedBodies(log, MaxOutput(maxOutputSizeMb))
    ensures r.Ok? ==>
              && answers.upload.Some?
              && r.value.projectId == expectedProjectId == answers.upload.value.projectId
              && r.value.assetId == answers.upload.value.assetId
    ensures r.Ok? ==>
              r.value.status == if answers.upload.value.alreadyCompleted then "ready" else answers.confirm.value.status
    // every failure that is none of these is a Contract error
    ensures var addressed := Addressed(expectedProjectId, size, maxOutputSizeMb, answers);
            var sent := addressed && answers.urlAllowed && StreamVerdict(Concat(chunks), size) == Valid;
            && (r == Err(Configuration) <==> addressed && !answers.urlAllowed)
            && (r == Err(Unavailable) <==> sent && !answers.putAccepted)
            && (r == Err(Remote) <==>
                  || (12 <= size <= MaxOutput(maxOutputSizeMb) && answers.upload.None?)
                  || (sent && answers.putAccepted && answers.confirm.None?))
    ensures log == [] <==> size < 12 || size > MaxOutput(maxOutputSizeMb)
    // a published result was confirmed, unless the control plane already held the output
    ensures r.Ok? ==> (answers.upload.value.alreadyCompleted <==> log == [OutputUpload])
    ensures r.Ok? && !answers.upload.value.alreadyCompleted ==>
              log == [OutputUpload, Put(size, Concat(chunks)), OutputConfirm(r.value.assetId, size)]
    // a body that is not a GLB of the announced size is never confirmed
    ensures StreamVerdict(Concat(chunks), size) != Valid ==>
              forall i :: 0 <= i < |log| ==> !log[i].OutputConfirm?
  {
    log := [];
    var maxBytes := MaxOutput(maxOutputSizeMb);
    if size < HEADER_BYTES || size > maxBytes {
      return Err(Contract), log;
    }
    log := log + [OutputUpload];
    if answers.upload.None? {
      return Err(Remote), log;
    }
    var upload := answers.upload.value;
    if upload.projectId != expectedProjectId {
      return Err(Contract), log;
    }
    if upload.alreadyCompleted {
      return Ok(Published(upload.projectId, upload.assetId, "ready")), log;
    }
    if upload.uploadUrl == None || upload.uploadUrl == Some("") {
      return Err(Contract), log;
    }
    if !answers.urlAllowed {
      return Err(Configuration), log;
    }
    var body, verdict := ValidatedGlbStream(chunks, size);
    EmittedIsBoundedPrefix(chunks, size, body);
    log := log + [Put(size, Concat(body))];
    if verdict != Valid {
      return Err(Contract), log;
    }
    if !answers.putAccepted {
      return Err(Unavailable), log;
    }
    log := log + [OutputConfirm(upload.assetId, size)];
    StreamAcceptsExactlyVerifiedFiles(chunks, size);
    if answers.confirm.None? {
      return Err(Remote), log;
    }
    var confirmed := answers.confirm.value;
    if confirmed.projectId != upload.projectId || confirmed.assetId != upload.assetId {
      return Err(Contract), log;
    }
    r := Ok(Published(confirmed.projectId, confirmed.assetId, confirmed.status));
  }
}
