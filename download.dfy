/**
 * The `download` command once the recorder has answered: the snapshot of a
 * user's buffer is cut into pieces that each fit, with their WAV header, in
 * the 24 MiB attachment cut, and every piece becomes one follow-up message
 * with one attached file.  The WAV encoding itself (`wav::package`) is not
 * part of this model: an attachment carries the samples it packages, and
 * the header size is a parameter.
 */
module Download {
  import opened Wrappers
  import opened RustInts
  import opened Slices
  import opened Decimal
  import opened Platform

  /** 24 MiB: the whole request may be 25 MiB, the rest is left as margin. */
  const MAX_FILE_SIZE: nat := 24 * 0x10_0000

  /** The header must leave room for at least one sample, or `chunks(0)` panics. */
  predicate ValidHeaderSize(headerSize: nat) {
    headerSize + 2 <= MAX_FILE_SIZE
  }

  /** `(MAX_FILE_SIZE - HEADER_SIZE) / 2`: the most 2-byte samples one file can hold. */
  function SamplesPerFile(headerSize: nat): (n: nat)
    requires ValidHeaderSize(headerSize)
    ensures n > 0
    ensures headerSize + 2 * n <= MAX_FILE_SIZE < headerSize + 2 * (n + 1)
  {
    (MAX_FILE_SIZE - headerSize) / 2
  }

  /** A file attached to a follow-up message, before packaging. */
  datatype Attachment = Attachment(filename: string, samples: seq<i16>)

  datatype DownloadReply =
    | NoVoiceData(user: User)       // "No voice data found for ..."
    | Files(files: seq<Attachment>) // one follow-up message per file, in order

  /** `{name}.wav` when everything fits in one file, `{name}-{i+1}.wav` otherwise. */
  function FileName(name: string, i: nat, single: bool): string {
    if single then name + ".wav" else name + "-" + Render(i + 1) + ".wav"
  }

  function SamplesOf(files: seq<Attachment>): (pieces: seq<seq<i16>>)
    ensures |pieces| == |files|
    ensures forall k :: 0 <= k < |files| ==> pieces[k] == files[k].samples
  {
    seq(|files|, k requires 0 <= k < |files| => files[k].samples)
  }

  lemma CancelAround(a: string, b: string, b': string, c: string)
    requires a + b + c == a + b' + c
    ensures b == b'
  {
    var s := a + b + c;
    assert |b| == |b'|;
    assert b == s[|a|..|a| + |b|];
    assert b' == (a + b' + c)[|a|..|a| + |b'|];
  }

  /** Numbered file names never collide. */
  lemma NumberedNamesDistinct(name: string, j: nat, k: nat)
    requires j != k
    ensures FileName(name, j, false) != FileName(name, k, false)
  {
    if FileName(name, j, false) == FileName(name, k, false) {
      assert name + "-" + Render(j + 1) + ".wav" == (name + "-") + Render(j + 1) + ".wav";
      CancelAround(name + "-", Render(j + 1), Render(k + 1), ".wav");
      RenderInjective(j + 1, k + 1);
    }
  }

  /** The files `download` attaches for a snapshot, one per piece, in order. */
  function Packaged(name: string, samples: seq<i16>, headerSize: nat): (files: seq<Attachment>)
    requires ValidHeaderSize(headerSize)
  {
    var pieces := Chunks(samples, SamplesPerFile(headerSize));
    var single := |samples| <= SamplesPerFile(headerSize);
    seq(|pieces|, k requires 0 <= k < |pieces| => Attachment(FileName(name, k, single), pieces[k]))
  }

  /** The files, in order, hold exactly the snapshot. */
  lemma PackagedCovers(name: string, samples: seq<i16>, headerSize: nat)
    requires ValidHeaderSize(headerSize)
    ensures SamplesOf(Packaged(name, samples, headerSize)) == Chunks(samples, SamplesPerFile(headerSize))
    ensures Flatten(SamplesOf(Packaged(name, samples, headerSize))) == samples
  {
    assert SamplesOf(Packaged(name, samples, headerSize)) == Chunks(samples, SamplesPerFile(headerSize));
    ChunksShape(samples, SamplesPerFile(headerSize));
  }

  /** Every file is non-empty and within the size cut; all but the last are full. */
  lemma PackagedSizes(name: string, samples: seq<i16>, headerSize: nat)
    requires ValidHeaderSize(headerSize)
    ensures forall k :: 0 <= k < |Packaged(name, samples, headerSize)| ==>
      0 < |Packaged(name, samples, headerSize)[k].samples| &&
      headerSize + 2 * |Packaged(name, samples, headerSize)[k].samples| <= MAX_FILE_SIZE
    ensures forall k :: 0 <= k < |Packaged(name, samples, headerSize)| - 1 ==>
      |Packaged(name, samples, headerSize)[k].samples| == SamplesPerFile(headerSize)
  {
    ChunksShape(samples, SamplesPerFile(headerSize));
  }

  /** One file named after the user, or at least two consecutively numbered files, never two alike. */
  lemma PackagedNames(name: string, samples: seq<i16>, headerSize: nat)
    requires ValidHeaderSize(headerSize)
    ensures samples == [] ==> Packaged(name, samples, headerSize) == []
    ensures 0 < |samples| <= SamplesPerFile(headerSize) ==>
      Packaged(name, samples, headerSize) == [Attachment(name + ".wav", samples)]
    ensures |samples| > SamplesPerFile(headerSize) ==>
      2 <= |Packaged(name, samples, headerSize)| &&
      forall k :: 0 <= k < |Packaged(name, samples, headerSize)| ==>
        Packaged(name, samples, headerSize)[k].filename == name + "-" + Render(k + 1) + ".wav"
    ensures forall j, k :: 0 <= j < k < |Packaged(name, samples, headerSize)| ==>
      Packaged(name, samples, headerSize)[j].filename != Packaged(name, samples, headerSize)[k].filename
  {
    var files := Packaged(name, samples, headerSize);
    ChunksShape(samples, SamplesPerFile(headerSize));
    if 0 < |samples| <= SamplesPerFile(headerSize) {
      ChunksOfShort(samples, SamplesPerFile(headerSize));
    }
    forall j, k | 0 <= j < k < |files| ensures files[j].filename != files[k].filename {
      NumberedNamesDistinct(name, j, k);
    }
  }

  /**
   * The loop of `download`: walks the chunks iterator, numbering the pieces
   * as `enumerate` does, and attaches one named file per piece.
   */
  method AttachAll(name: string, samples: seq<i16>, headerSize: nat) returns (files: seq<Attachment>)
    requires ValidHeaderSize(headerSize)
    ensures files == Packaged(name, samples, headerSize)
  {
    var n := SamplesPerFile(headerSize);
    ghost var pieces := Chunks(samples, n);
    var single := |samples| <= n;
    files := [];
    var rest := samples;
    var i := 0;
    while rest != []
      invariant i == |files| <= |pieces|
      invariant Chunks(rest, n) == pieces[i..]
      invariant forall k :: 0 <= k < i ==> files[k] == Attachment(FileName(name, k, single), pieces[k])
      decreases |rest|
    {
      ChunksAdvance(samples, rest, n, i);
      var chunk := FirstChunk(rest, n);
      files := files + [Attachment(FileName(name, i, single), chunk)];
      rest := rest[|chunk|..];
      i := i + 1;
    }
    assert |files| == |pieces|;
  }

  /** The reply to `download`, given the recorder's answer for the user. */
  method Download(user: User, data: Option<seq<i16>>, headerSize: nat) returns (reply: DownloadReply)
    requires ValidHeaderSize(headerSize)
    ensures data.None? ==> reply == NoVoiceData(user)
    ensures data.Some? ==> reply == Files(Packaged(user.name, data.value, headerSize))
  {
    match data
    case None =>
      reply := NoVoiceData(user);
    case Some(samples) =>
      var files := AttachAll(user.name, samples, headerSize);
      reply := Files(files);
  }
}
