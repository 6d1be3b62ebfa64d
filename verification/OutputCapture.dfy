/**
 Bounded capture of a batch script's output: bytes go to a temporary file up to a limit and to
 an in-memory preview up to another; finishing moves the file to its final path
 (backend/internal/batchoutput/batchoutput.go).
 */
module OutputCapture {
  import opened Text
  import opened ByteStrings

  const PREVIEW_BYTES: nat := 262144
  const DEFAULT_MAX: int := 262144
  const MINIMUM_MAX: int := 16384
  const MAXIMUM_MAX: int := 268435456

  /** `NormalizeMaxBytes`. */
  function NormalizeMaxBytes(value: int): (limit: int)
    ensures MINIMUM_MAX <= limit <= MAXIMUM_MAX
    ensures MINIMUM_MAX <= value <= MAXIMUM_MAX ==> limit == value
    ensures value <= 0 ==> limit == 262144
    ensures 0 < value < MINIMUM_MAX ==> limit == MINIMUM_MAX
    ensures value > MAXIMUM_MAX ==> limit == MAXIMUM_MAX
  {
    if value <= 0 then DEFAULT_MAX
    else if value < MINIMUM_MAX then MINIMUM_MAX
    else if value > MAXIMUM_MAX then MAXIMUM_MAX
    else value
  }

  /** The first `n` bytes, or all of them. */
  function Take(s: Bytes, n: nat): Bytes {
    if |s| <= n then s else s[..n]
  }

  /** An open capture: the file's content, the preview, and whether something was cut off. */
  datatype Capturing = Capturing(limit: nat, file: Bytes, preview: Bytes, truncated: bool)

  /** `boundedPreview.Write`. */
  function PreviewAfter(preview: Bytes, data: Bytes): Bytes {
    if |preview| >= PREVIEW_BYTES then preview
    else if |data| > PREVIEW_BYTES - |preview| then preview + data[..PREVIEW_BYTES - |preview|]
    else preview + data
  }

  /** The part of `data` that `Write` hands to the file. */
  function ForFile(c: Capturing, data: Bytes): Bytes {
    if |c.file| >= c.limit then [] else Take(data, c.limit - |c.file|)
  }

  /** `Write` when the file takes `taken` of the bytes handed to it. */
  function AfterWrite(c: Capturing, data: Bytes, taken: nat): Capturing
    requires taken <= |ForFile(c, data)|
  {
    c.(file := c.file + ForFile(c, data)[..taken],
       preview := PreviewAfter(c.preview, data),
       truncated := c.truncated || |c.file| >= c.limit || |data| > c.limit - |c.file|)
  }

  // ---------------------------------------------------------------- sequences of writes

  datatype Writes = NoWrites | Then(before: Writes, data: Bytes)

  function Total(w: Writes): Bytes {
    match w
    case NoWrites => []
    case Then(before, data) => Total(before) + data
  }

  /** All writes succeed. */
  function After(limit: nat, w: Writes): Capturing {
    match w
    case NoWrites => Capturing(limit, [], [], false)
    case Then(before, data) =>
      var c := After(limit, before);
      AfterWrite(c, data, |ForFile(c, data)|)
  }

  /** Some write was empty and came when the limit had been reached. */
  predicate EmptyWriteAtLimit(limit: nat, w: Writes) {
    w.Then? && (EmptyWriteAtLimit(limit, w.before) || (w.data == [] && |Total(w.before)| >= limit))
  }

  predicate NonEmpty(w: Writes) {
    w.Then? ==> NonEmpty(w.before) && w.data != []
  }

  /**
   However the output is cut into writes, the file holds its first `limit` bytes and the
   preview its first 256 KiB; it counts as truncated exactly when it is longer than the limit
   or an empty write came at the limit.
   */
  lemma {:induction false} CaptureIsAPrefix(limit: nat, w: Writes)
    ensures var c := After(limit, w);
            && c.limit == limit
            && c.file == Take(Total(w), limit)
            && c.preview == Take(Total(w), PREVIEW_BYTES)
            && (c.truncated <==> |Total(w)| > limit || EmptyWriteAtLimit(limit, w))
    decreases w
  {
    if w.Then? {
      CaptureIsAPrefix(limit, w.before);
      var c := After(limit, w.before);
      assert ForFile(c, w.data)[..|ForFile(c, w.data)|] == ForFile(c, w.data);
    }
  }

  /** Without empty writes the capture depends on the bytes only, and `truncated` means cut off. */
  lemma {:induction false} ChunkingIsInvisible(limit: nat, a: Writes, b: Writes)
    requires NonEmpty(a) && NonEmpty(b) && Total(a) == Total(b)
    ensures After(limit, a) == After(limit, b)
    ensures After(limit, a).truncated <==> |Total(a)| > limit
  {
    CaptureIsAPrefix(limit, a);
    CaptureIsAPrefix(limit, b);
    NonEmptyWritesOnly(limit, a);
    NonEmptyWritesOnly(limit, b);
  }

  lemma {:induction false} NonEmptyWritesOnly(limit: nat, w: Writes)
    requires NonEmpty(w)
    ensures !EmptyWriteAtLimit(limit, w)
    decreases w
  {
    if w.Then? { NonEmptyWritesOnly(limit, w.before); }
  }

  /** An output of exactly the limit is reported as truncated after one more, empty, write. */
  lemma ExactFitCanCountAsTruncated(data: Bytes)
    requires data != []
    ensures !After(|data|, Then(NoWrites, data)).truncated
    ensures After(|data|, Then(Then(NoWrites, data), [])).truncated
  {
    CaptureIsAPrefix(|data|, Then(NoWrites, data));
    CaptureIsAPrefix(|data|, Then(Then(NoWrites, data), []));
  }

  // ---------------------------------------------------------------- the capture itself

  class Disk {
    var files: map<string, Bytes>

    constructor (files: map<string, Bytes>)
      ensures this.files == files
    {
      this.files := files;
    }
  }

  datatype Finished =
    | ClosedPipe
    | FinishError
    | Captured(preview: Bytes, truncated: bool, ref: Option<string>, bytes: nat)

  class Capture {
    const disk: Disk
    const ref: string
    const tmpPath: string
    const finalPath: string
    const limit: nat
    var bytes: nat
    var preview: Bytes
    var truncated: bool
    var closed: bool

    ghost predicate Open()
      reads this, disk
    {
      !closed && tmpPath in disk.files && bytes == |disk.files[tmpPath]|
    }

    ghost function View(): Capturing
      reads this, disk
      requires Open()
    {
      Capturing(limit, disk.files[tmpPath], preview, truncated)
    }

    /** `NewCapture`, once the temporary file exists. */
    constructor (disk: Disk, ref: string, tmpPath: string, finalPath: string, maxBytes: int)
      requires tmpPath != finalPath && tmpPath in disk.files && disk.files[tmpPath] == []
      ensures this.disk == disk && this.ref == ref && this.tmpPath == tmpPath && this.finalPath == finalPath
      ensures limit == NormalizeMaxBytes(maxBytes)
      ensures Open() && View() == After(limit, NoWrites)
    {
      this.disk, this.ref, this.tmpPath, this.finalPath := disk, ref, tmpPath, finalPath;
      limit := NormalizeMaxBytes(maxBytes);
      bytes, preview, truncated, closed := 0, [], false, false;
    }

    /** `room` is how many more bytes the file system takes; a short write is an error. */
    method Write(data: Bytes, room: nat) returns (n: nat, ok: bool)
      requires closed || Open()
      modifies this, disk
      ensures old(closed) ==> !ok && n == 0 && closed && disk.files == old(disk.files)
                              && bytes == old(bytes) && preview == old(preview) && truncated == old(truncated)
      ensures !old(closed) ==>
                var c := old(View());
                var taken := if |ForFile(c, data)| <= room then |ForFile(c, data)| else room;
                && Open() && View() == AfterWrite(c, data, taken)
                && (ok <==> taken == |ForFile(c, data)|)
                && n == (if ok then |data| else taken)
                && disk.files == old(disk.files)[tmpPath := View().file]
    {
      if closed { return 0, false; }
      preview := PreviewAfter(preview, data);
      if bytes >= limit {
        truncated := true;
        assert disk.files[tmpPath] + [] == disk.files[tmpPath];
        return |data|, true;
      }
      var remaining := limit - bytes;
      var chunk := data;
      if |chunk| > remaining {
        chunk := data[..remaining];
        truncated := true;
      }
      if |chunk| > 0 {
        var written := if |chunk| <= room then |chunk| else room;
        disk.files := disk.files[tmpPath := disk.files[tmpPath] + chunk[..written]];
        bytes := bytes + written;
        if written < |chunk| { return written, false; }
      }
      return |data|, true;
    }

    /** `Finish`; closing and renaming may fail. */
    method Finish(closes: bool, renames: bool) returns (r: Finished)
      requires tmpPath != finalPath && (closed || Open())
      modifies this`closed, disk
      ensures closed
      ensures old(closed) ==> r.ClosedPipe? && disk.files == old(disk.files)
      ensures !old(closed) ==>
                var c := old(View());
                && (r.Captured? <==> closes && (c.file == [] || renames))
                && (r.Captured? ==>
                      && r.preview == c.preview && r.truncated == c.truncated && r.bytes == |c.file|
                      && (r.ref.Some? <==> c.file != [])
                      && (r.ref.Some? ==> r.ref.value == ref))
                && (r.Captured? && r.ref.Some? ==> disk.files == old(disk.files)[finalPath := c.file] - {tmpPath})
                && (!(r.Captured? && r.ref.Some?) ==> disk.files == old(disk.files) - {tmpPath})
    {
      if closed { return ClosedPipe; }
      closed := true;
      if !closes {
        disk.files := disk.files - {tmpPath};
        return FinishError;
      }
      if bytes == 0 {
        disk.files := disk.files - {tmpPath};
        return Captured(preview, truncated, None, bytes);
      }
      if !renames {
        disk.files := disk.files - {tmpPath};
        return FinishError;
      }
      disk.files := disk.files[finalPath := disk.files[tmpPath]] - {tmpPath};
      return Captured(preview, truncated, Some(ref), bytes);
    }

    method Abort()
      requires closed || Open()
      modifies this`closed, disk
      ensures closed
      ensures disk.files == if old(closed) then old(disk.files) else old(disk.files) - {tmpPath}
    {
      if closed { return; }
      closed := true;
      disk.files := disk.files - {tmpPath};
    }
  }

  function WritesOf(chunks: seq<Bytes>): Writes {
    if chunks == [] then NoWrites else Then(WritesOf(chunks[..|chunks| - 1]), chunks[|chunks| - 1])
  }

  /** A whole capture whose writes succeed: what is kept, where, and what is reported. */
  method CaptureAll(disk: Disk, ref: string, tmpPath: string, finalPath: string, maxBytes: int, chunks: seq<Bytes>)
      returns (r: Finished)
    requires tmpPath != finalPath && tmpPath in disk.files && disk.files[tmpPath] == []
    requires NonEmpty(WritesOf(chunks))
    modifies disk
    ensures var output, limit := Total(WritesOf(chunks)), NormalizeMaxBytes(maxBytes);
            && r.Captured?
            && r.preview == Take(output, PREVIEW_BYTES)
            && (r.truncated <==> |output| > limit)
            && (r.ref.Some? <==> output != [])
            && (r.ref.Some? ==> finalPath in disk.files && disk.files[finalPath] == Take(output, limit))
            && tmpPath !in disk.files
  {
    var c := new Capture(disk, ref, tmpPath, finalPath, maxBytes);
    assert chunks[..0] == [];
    for i := 0 to |chunks|
      invariant !c.closed && c.Open() && c.View() == After(c.limit, WritesOf(chunks[..i]))
    {
      assert chunks[..i + 1][..i] == chunks[..i];
      var n, ok := c.Write(chunks[i], |chunks[i]|);
    }
    assert chunks[..|chunks|] == chunks;
    CaptureIsAPrefix(c.limit, WritesOf(chunks));
    NonEmptyWritesOnly(c.limit, WritesOf(chunks));
    r := c.Finish(true, true);
  }
}
