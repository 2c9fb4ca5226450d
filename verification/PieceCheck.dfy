/**
 Checking a torrent's pieces against the files on disk, and the progress rebuilt from it.
 The hash is an arbitrary function of bytes; the disk is what opening each file yields.
 */
module PieceCheck {
  import opened Wrappers
  import opened Numbers

  type Bytes = seq<bv8>

  datatype ReadError = EndOfFile | UnexpectedEndOfFile | Broken(message: string)

  /** What is found at a file's path. */
  datatype Content = Present(bytes: Bytes) | NotExist | Denied | Unreadable(message: string)

  /** A file of the torrent: where it starts in the torrent, its length, and what the disk holds. */
  datatype File = File(offset: int, length: nat, content: Content)

  datatype Info = Info(pieceLength: int, hashes: seq<Option<Bytes>>, files: seq<File>)

  function Total(files: seq<File>): nat {
    if files == [] then 0 else Total(files[..|files| - 1]) + files[|files| - 1].length
  }

  /** The files lie one after the other from offset 0, empty ones included. */
  ghost predicate Tile(files: seq<File>) {
    forall k | 0 <= k < |files| :: files[k].offset == Total(files[..k])
  }

  /** The library's rule: every piece has the piece length except the last, which takes the rest. */
  function PieceLength(info: Info, i: int): int {
    if i == |info.hashes| - 1 then Total(info.files) - i * info.pieceLength else info.pieceLength
  }

  function Clamp(x: int, top: nat): (r: nat)
    ensures r <= top
  {
    Max(0, Min(x, top))
  }

  /** The part of `s` from `a` up to `b`, as far as `s` reaches. */
  function Slice(s: Bytes, a: int, b: int): Bytes {
    s[Clamp(a, |s|)..Max(Clamp(a, |s|), Clamp(b, |s|))]
  }

  /** The bytes of one file at its listed length; what is missing on disk reads as zero. */
  function Fill(f: File): (r: Bytes)
    ensures |r| == f.length
  {
    seq(f.length, k requires 0 <= k =>
      if f.content.Present? && k < |f.content.bytes| then f.content.bytes[k] else 0)
  }

  /** The torrent's data: its files one after the other. */
  function Image(files: seq<File>): (r: Bytes)
    ensures |r| == Total(files)
  {
    if files == [] then [] else Image(files[..|files| - 1]) + Fill(files[|files| - 1])
  }

  // ---- Reading ---------------------------------------------------------------------

  datatype Fault = Absent | Failed(error: ReadError)

  datatype ReadResult = Data(bytes: Bytes) | Problem(fault: Fault)

  /** `readRange`: exactly `length` bytes from `offset`, or an error. */
  function ReadRange(c: Content, offset: nat, length: nat): ReadResult {
    match c
    case NotExist => Problem(Absent)
    case Denied => Problem(Absent)
    case Unreadable(m) => Problem(Failed(Broken(m)))
    case Present(bytes) =>
      if offset + length <= |bytes| then Data(bytes[offset..offset + length])
      else if offset >= |bytes| then Problem(Failed(EndOfFile))
      else Problem(Failed(UnexpectedEndOfFile))
  }

  /** The file has bytes in `[a, b)`. */
  predicate Overlaps(f: File, a: int, b: int) {
    Max(f.offset, a) < Min(f.offset + f.length, b)
  }

  function ReadOverlap(f: File, a: int, b: int): ReadResult
    requires Overlaps(f, a, b)
  {
    var lo, hi := Max(f.offset, a), Min(f.offset + f.length, b);
    ReadRange(f.content, lo - f.offset, hi - lo)
  }

  /** The first trouble met when reading `[a, b)` file by file, from file `k` on. */
  function FirstFault(files: seq<File>, a: int, b: int, k: nat): Option<Fault>
    requires k <= |files|
    decreases |files| - k
  {
    if k == |files| then None
    else if Overlaps(files[k], a, b) && ReadOverlap(files[k], a, b).Problem? then
      Some(ReadOverlap(files[k], a, b).fault)
    else FirstFault(files, a, b, k + 1)
  }

  // ---- One piece -----------------------------------------------------------------------

  datatype Verdict = Verdict(complete: bool, error: Option<ReadError>)

  function PieceStart(info: Info, i: int): int { i * info.pieceLength }

  function PieceEnd(info: Info, i: int): int {
    Min(PieceStart(info, i) + PieceLength(info, i), Total(info.files))
  }

  /** The verdict on piece `i`: the hash of its stretch of the torrent's data. */
  function Judge(sha1: Bytes -> Bytes, info: Info, i: nat): Verdict
    requires i < |info.hashes|
  {
    if info.hashes[i].None? || PieceLength(info, i) <= 0 then Verdict(false, None)
    else
      var a, b := PieceStart(info, i), PieceEnd(info, i);
      match FirstFault(info.files, a, b, 0)
      case Some(Absent) => Verdict(false, None)
      case Some(Failed(e)) => Verdict(false, Some(e))
      case None =>
        var data := Slice(Image(info.files), a, b);
        Verdict(|data| == PieceLength(info, i) && sha1(data) == info.hashes[i].value, None)
  }

  lemma SliceSplit(x: Bytes, y: Bytes, a: int, b: int)
    ensures Slice(x + y, a, b) == Slice(x, a, b) + Slice(y, a - |x|, b - |x|)
  {
  }

  /** What a successful read of an overlap returns is that stretch of the file. */
  lemma ReadIsSlice(f: File, a: int, b: int)
    requires Overlaps(f, a, b) && ReadOverlap(f, a, b).Data?
    ensures ReadOverlap(f, a, b).bytes == Slice(Fill(f), a - f.offset, b - f.offset)
  {
  }

  lemma NoOverlapNoSlice(f: File, a: int, b: int)
    requires !Overlaps(f, a, b)
    ensures Slice(Fill(f), a - f.offset, b - f.offset) == []
  {
  }

  lemma TakeStep(files: seq<File>, k: nat, a: int, b: int)
    requires k < |files| && Tile(files)
    ensures Slice(Image(files[..k + 1]), a, b)
         == Slice(Image(files[..k]), a, b) + Slice(Fill(files[k]), a - files[k].offset, b - files[k].offset)
  {
    var x := files[..k + 1];
    assert x[..|x| - 1] == files[..k] && x[|x| - 1] == files[k];
    SliceSplit(Image(files[..k]), Fill(files[k]), a, b);
  }

  lemma FaultStep(files: seq<File>, a: int, b: int, k: nat)
    requires k <= |files|
    ensures k == |files| ==> FirstFault(files, a, b, k) == None
    ensures k < |files| && !Overlaps(files[k], a, b) ==> FirstFault(files, a, b, k) == FirstFault(files, a, b, k + 1)
    ensures k < |files| && Overlaps(files[k], a, b) ==>
      FirstFault(files, a, b, k) ==
        match ReadOverlap(files[k], a, b)
        case Data(_) => FirstFault(files, a, b, k + 1)
        case Problem(f) => Some(f)
  {
  }

  lemma NothingYet(info: Info, i: int)
    ensures Slice(Image(info.files[..0]), PieceStart(info, i), PieceEnd(info, i)) == []
  {
  }

  method VerifyPiece(sha1: Bytes -> Bytes, info: Info, i: nat) returns (complete: bool, error: Option<ReadError>)
    requires i < |info.hashes| && Tile(info.files)
    ensures Verdict(complete, error) == Judge(sha1, info, i)
  {
    hide Slice, Image, ReadRange, FirstFault, Total, PieceLength;
    if info.hashes[i].None? {
      return false, None;
    }
    var pieceLen := PieceLength(info, i);
    if pieceLen <= 0 {
      return false, None;
    }
    var pieceBytes: Bytes := [];
    NothingYet(info, i);
    var pieceStart := i * info.pieceLength;
    var pieceEnd := pieceStart + pieceLen;
    if pieceEnd > Total(info.files) {
      pieceEnd := Total(info.files);
    }
    assert pieceStart == PieceStart(info, i) && pieceEnd == PieceEnd(info, i);
    hide PieceStart, PieceEnd;
    var k := 0;
    while k < |info.files|
      invariant 0 <= k <= |info.files|
      invariant FirstFault(info.files, pieceStart, pieceEnd, 0) == FirstFault(info.files, pieceStart, pieceEnd, k)
      invariant pieceBytes == Slice(Image(info.files[..k]), pieceStart, pieceEnd)
    {
      var f := info.files[k];
      TakeStep(info.files, k, pieceStart, pieceEnd);
      FaultStep(info.files, pieceStart, pieceEnd, k);
      var fileStart, fileEnd := f.offset, f.offset + f.length;
      var overlapStart := Max(fileStart, pieceStart);
      var overlapEnd := Min(fileEnd, pieceEnd);
      if fileEnd <= pieceStart || fileStart >= pieceEnd || overlapEnd <= overlapStart {
        NoOverlapNoSlice(f, pieceStart, pieceEnd);
      } else {
        assert Overlaps(f, pieceStart, pieceEnd);
        var r := ReadRange(f.content, overlapStart - fileStart, overlapEnd - overlapStart);
        assert r == ReadOverlap(f, pieceStart, pieceEnd);
        match r {
          case Problem(Absent) => return false, None;
          case Problem(Failed(e)) => return false, Some(e);
          case Data(data) =>
            ReadIsSlice(f, pieceStart, pieceEnd);
            pieceBytes := pieceBytes + data;
        }
      }
      k := k + 1;
    }
    assert info.files[..k] == info.files;
    FaultStep(info.files, pieceStart, pieceEnd, k);
    if |pieceBytes| != pieceLen {
      return false, None;
    }
    return sha1(pieceBytes) == info.hashes[i].value, None;
  }

  // ---- Trouble with the files ------------------------------------------------------------------

  /** The file has on disk all that is wanted of it in `[a, b)`. */
  predicate Readable(f: File, a: int, b: int) {
    f.content.Present? && |f.content.bytes| >= Min(f.offset + f.length, b) - f.offset
  }

  lemma {:induction false} FirstTrouble(files: seq<File>, a: int, b: int, from: nat, k: nat)
    requires from <= k < |files| && Overlaps(files[k], a, b) && !Readable(files[k], a, b)
    requires forall j | from <= j < k && Overlaps(files[j], a, b) :: Readable(files[j], a, b)
    ensures FirstFault(files, a, b, from) == Some(ReadOverlap(files[k], a, b).fault)
    decreases k - from
  {
    if from < k {
      FirstTrouble(files, a, b, from + 1, k);
    }
  }

  /**
   The first file of a piece that cannot be read decides: a missing or forbidden one makes the
   piece incomplete, any other trouble, a file too short included, is an error.
   */
  lemma TroubleDecides(sha1: Bytes -> Bytes, info: Info, i: nat, k: nat)
    requires i < |info.hashes| && info.hashes[i].Some? && PieceLength(info, i) > 0 && k < |info.files|
    requires var a, b := PieceStart(info, i), PieceEnd(info, i);
      && Overlaps(info.files[k], a, b) && !Readable(info.files[k], a, b)
      && forall j | 0 <= j < k && Overlaps(info.files[j], a, b) :: Readable(info.files[j], a, b)
    ensures !Judge(sha1, info, i).complete
    ensures match info.files[k].content
      case NotExist => Judge(sha1, info, i).error == None
      case Denied => Judge(sha1, info, i).error == None
      case Unreadable(m) => Judge(sha1, info, i).error == Some(Broken(m))
      case Present(bytes) =>
        var first := Max(info.files[k].offset, PieceStart(info, i)) - info.files[k].offset;
        Judge(sha1, info, i).error == Some(if |bytes| <= first then EndOfFile else UnexpectedEndOfFile)
  {
    FirstTrouble(info.files, PieceStart(info, i), PieceEnd(info, i), 0, k);
    hide PieceStart, PieceEnd, PieceLength, FirstFault, Image, Slice;
  }

  // ---- A disk that holds everything ---------------------------------------------------------

  predicate OnDisk(f: File) {
    f.content.Present? && |f.content.bytes| >= f.length
  }

  /** The piece count fits the total: all pieces but the last are full, and the last is not empty. */
  predicate WellFormed(info: Info) {
    var n := |info.hashes|;
    n > 0 && info.pieceLength > 0 && (n - 1) * info.pieceLength < Total(info.files) <= n * info.pieceLength
  }

  lemma {:induction false} NoFault(files: seq<File>, a: int, b: int, k: nat)
    requires k <= |files| && forall j | 0 <= j < |files| :: OnDisk(files[j])
    ensures FirstFault(files, a, b, k).None?
    decreases |files| - k
  {
    if k < |files| {
      NoFault(files, a, b, k + 1);
    }
  }

  lemma PieceInside(info: Info, i: nat)
    requires WellFormed(info) && i < |info.hashes|
    ensures 0 <= PieceStart(info, i) && PieceLength(info, i) > 0
    ensures PieceEnd(info, i) == PieceStart(info, i) + PieceLength(info, i)
         == Min((i + 1) * info.pieceLength, Total(info.files))
  {
    var n, p := |info.hashes|, info.pieceLength;
    assert i * p >= 0;
    if i < n - 1 {
      assert (i + 1) * p <= (n - 1) * p;
    }
  }

  /**
   On a complete disk the bytes of every piece are all found: its verdict is the hash of
   the torrent's data from `i * pieceLength` up to the next piece or the end.
   */
  lemma CompleteDisk(sha1: Bytes -> Bytes, info: Info, i: nat)
    requires WellFormed(info) && i < |info.hashes|
    requires forall j | 0 <= j < |info.files| :: OnDisk(info.files[j])
    ensures 0 <= i * info.pieceLength < Min((i + 1) * info.pieceLength, Total(info.files)) <= |Image(info.files)|
    ensures var data := Image(info.files)[i * info.pieceLength..Min((i + 1) * info.pieceLength, Total(info.files))];
      |data| == PieceLength(info, i) && Judge(sha1, info, i) == Verdict(info.hashes[i] == Some(sha1(data)), None)
  {
    PieceInside(info, i);
    NoFault(info.files, PieceStart(info, i), PieceEnd(info, i), 0);
  }

  // ---- The whole torrent ---------------------------------------------------------------------

  predicate Verified(sha1: Bytes -> Bytes, info: Info, i: nat)
    requires i < |info.hashes|
  {
    Judge(sha1, info, i).complete
  }

  function VerifiedBytes(sha1: Bytes -> Bytes, info: Info, n: nat): int
    requires n <= |info.hashes|
  {
    if n == 0 then 0
    else VerifiedBytes(sha1, info, n - 1) + if Verified(sha1, info, n - 1) then PieceLength(info, n - 1) else 0
  }

  function VerifiedCount(sha1: Bytes -> Bytes, info: Info, n: nat): nat
    requires n <= |info.hashes|
  {
    if n == 0 then 0 else VerifiedCount(sha1, info, n - 1) + if Verified(sha1, info, n - 1) then 1 else 0
  }

  /** The error of the first piece that has one. */
  function FirstError(sha1: Bytes -> Bytes, info: Info, n: nat): Option<ReadError>
    requires n <= |info.hashes|
  {
    if n == 0 then None
    else
      var e := FirstError(sha1, info, n - 1);
      if e.Some? then e else Judge(sha1, info, n - 1).error
  }

  /** A verified piece lies within the torrent's data, whatever the piece count claims. */
  lemma VerifiedInside(sha1: Bytes -> Bytes, info: Info, i: nat)
    requires i < |info.hashes| && Verified(sha1, info, i)
    ensures 0 < PieceLength(info, i)
    ensures 0 <= PieceStart(info, i) && PieceStart(info, i) + PieceLength(info, i) <= Total(info.files)
  {
    var a, b := PieceStart(info, i), PieceEnd(info, i);
    assert |Slice(Image(info.files), a, b)| == PieceLength(info, i);
  }

  lemma {:induction false} BytesBelow(sha1: Bytes -> Bytes, info: Info, n: nat)
    requires n < |info.hashes|
    ensures 0 <= VerifiedBytes(sha1, info, n) <= Total(info.files)
    ensures VerifiedBytes(sha1, info, n) > 0 ==> VerifiedBytes(sha1, info, n) <= PieceStart(info, n)
  {
    hide Verified, PieceStart, Total;
    if n > 0 {
      BytesBelow(sha1, info, n - 1);
      NextStart(info, n - 1);
      if Verified(sha1, info, n - 1) {
        VerifiedInside(sha1, info, n - 1);
      }
    }
  }

  lemma NextStart(info: Info, i: nat)
    ensures PieceStart(info, i + 1) == PieceStart(info, i) + info.pieceLength
    ensures info.pieceLength <= 0 ==> PieceStart(info, i) <= 0
    ensures info.pieceLength >= 0 ==> PieceStart(info, i) >= 0
  {
  }

  /** Whatever the piece count and the piece length, the completed bytes never exceed the total. */
  lemma CompletedWithinTotal(sha1: Bytes -> Bytes, info: Info)
    ensures 0 <= VerifiedBytes(sha1, info, |info.hashes|) <= Total(info.files)
  {
    hide Verified, PieceStart, Total;
    var n := |info.hashes|;
    if n > 0 {
      BytesBelow(sha1, info, n - 1);
      if Verified(sha1, info, n - 1) {
        VerifiedInside(sha1, info, n - 1);
      }
    }
  }

  lemma FirstStart(info: Info)
    ensures PieceStart(info, 0) == 0
  {
  }

  lemma LastLength(info: Info)
    requires info.hashes != []
    ensures PieceStart(info, |info.hashes| - 1) + PieceLength(info, |info.hashes| - 1) == Total(info.files)
  {
  }

  lemma {:induction false} AllOrLess(sha1: Bytes -> Bytes, info: Info, n: nat)
    requires WellFormed(info) && n < |info.hashes|
    ensures VerifiedBytes(sha1, info, n) <= PieceStart(info, n)
    ensures VerifiedBytes(sha1, info, n) == PieceStart(info, n) <==> forall i: nat | i < n :: Verified(sha1, info, i)
  {
    hide Verified, PieceStart;
    if n == 0 {
      FirstStart(info);
    } else {
      NextStart(info, n - 1);
      AllOrLess(sha1, info, n - 1);
    }
  }

  /** In a well-formed torrent the completed bytes reach the total exactly when every piece is verified. */
  lemma CompleteExactlyWhenAllVerified(sha1: Bytes -> Bytes, info: Info)
    requires WellFormed(info)
    ensures VerifiedBytes(sha1, info, |info.hashes|) == Total(info.files)
       <==> forall i: nat | i < |info.hashes| :: Verified(sha1, info, i)
  {
    var n := |info.hashes|;
    hide Verified, PieceStart;
    AllOrLess(sha1, info, n - 1);
    PieceInside(info, n - 1);
    LastLength(info);
  }

  // ---- The bitfield -----------------------------------------------------------------------------

  /** Bit `k` of a byte, counted from the high end. */
  function Mask(k: nat): bv8
    requires k < 8
  {
    1 as bv8 << (7 - k)
  }

  predicate BitAt(b: bv8, k: nat)
    requires k < 8
  {
    b & Mask(k) != 0
  }

  /** Bit `i` of a bitfield (BEP 3: the high bit of the first byte is piece 0). */
  predicate BitOf(bits: Bytes, i: nat)
    requires i / 8 < |bits|
  {
    BitAt(bits[i / 8], i % 8)
  }

  lemma SetBitAt(b: bv8, k: nat, m: nat)
    requires k < 8 && m < 8
    ensures BitAt(b | Mask(k), m) <==> BitAt(b, m) || m == k
  {
    MaskIs(k);
    MaskIs(m);
  }

  lemma MaskIs(k: nat)
    requires k < 8
    ensures Mask(k) == [0x80, 0x40, 0x20, 0x10, 0x08, 0x04, 0x02, 0x01][k]
  {
    assert k == 0 || k == 1 || k == 2 || k == 3 || k == 4 || k == 5 || k == 6 || k == 7;
  }

  lemma ZeroBit(k: nat)
    requires k < 8
    ensures !BitAt(0, k)
  {
  }

  lemma NoBits(bits: Bytes)
    requires forall k | 0 <= k < |bits| :: bits[k] == 0
    ensures forall i: nat | i / 8 < |bits| :: !BitOf(bits, i)
  {
    forall i: nat | i / 8 < |bits| ensures !BitOf(bits, i) {
      ZeroBit(i % 8);
    }
  }

  /** The task whose progress is rebuilt. */
  class Item {
    var bitfield: Bytes
    var totalPieces: int
    var completedPieces: int
    var completedLength: int
    var verifiedLength: int
    var pieceLength: int
    var totalLength: int

    constructor ()
    {
    }
  }

  method RebuildBTProgress(sha1: Bytes -> Bytes, info: Info, item: Item)
    returns (error: Option<ReadError>, completion: map<nat, bool>)
    requires Tile(info.files)
    modifies item
    ensures error == FirstError(sha1, info, |info.hashes|)
    ensures completion == map i: nat | i < |info.hashes| :: Verified(sha1, info, i)
    ensures info.hashes == [] ==> unchanged(item)
    ensures info.hashes != [] ==>
      var n := |info.hashes|;
      && |item.bitfield| == (n + 7) / 8
      && (forall i: nat | i / 8 < |item.bitfield| :: BitOf(item.bitfield, i) <==> i < n && Verified(sha1, info, i))
      && item.totalPieces == n
      && item.completedPieces == VerifiedCount(sha1, info, n)
      && item.completedLength == item.verifiedLength == VerifiedBytes(sha1, info, n) <= item.totalLength
      && item.pieceLength == info.pieceLength && item.totalLength == Total(info.files)
  {
    hide Judge, BitOf, Total, PieceLength;
    var n := |info.hashes|;
    completion := map[];
    error := None;
    if n <= 0 {
      return;
    }
    var bits := new bv8[(n + 7) / 8](_ => 0);
    var completedPieces, completedBytes := 0, 0;
    NoBits(bits[..]);
    for i := 0 to n
      invariant error == FirstError(sha1, info, i)
      invariant completion == map j: nat | j < i :: Verified(sha1, info, j)
      invariant forall j: nat | j / 8 < bits.Length :: BitOf(bits[..], j) <==> j < i && Verified(sha1, info, j)
      invariant completedPieces == VerifiedCount(sha1, info, i)
      invariant completedBytes == VerifiedBytes(sha1, info, i)
    {
      var complete, err := VerifyPiece(sha1, info, i);
      if err.Some? && error.None? {
        error := err;
      }
      if complete {
        SetPiece(bits, i);
        completedPieces := completedPieces + 1;
        completedBytes := completedBytes + PieceLength(info, i);
      }
      completion := completion[i := complete];
    }
    CompletedWithinTotal(sha1, info);
    item.bitfield := bits[..];
    item.totalPieces := n;
    item.completedPieces := completedPieces;
    item.pieceLength := info.pieceLength;
    item.totalLength := Total(info.files);
    item.completedLength := completedBytes;
    item.verifiedLength := completedBytes;
  }

  /** Sets one bit of a bitfield and no other. */
  method SetPiece(bits: array<bv8>, i: nat)
    requires i / 8 < bits.Length
    modifies bits
    ensures forall j: nat | j / 8 < bits.Length :: BitOf(bits[..], j) <==> old(BitOf(bits[..], j)) || j == i
  {
    ghost var before := bits[..];
    bits[i / 8] := bits[i / 8] | (1 as bv8 << (7 - i % 8));
    forall j: nat | j / 8 < bits.Length ensures BitOf(bits[..], j) <==> BitOf(before, j) || j == i {
      if j / 8 == i / 8 {
        SetBitAt(before[i / 8], i % 8, j % 8);
      }
    }
  }

  // ---- Progress spread over files ------------------------------------------------------------------

  datatype FileProgress = FileProgress(length: nat, completed: int)

  function Lengths(files: seq<FileProgress>): nat {
    if files == [] then 0 else Lengths(files[..|files| - 1]) + files[|files| - 1].length
  }

  function CompletedSum(files: seq<FileProgress>): int {
    if files == [] then 0 else CompletedSum(files[..|files| - 1]) + files[|files| - 1].completed
  }

  /** The files of `old` filled from the front with `total` bytes. */
  ghost predicate Filled(files: seq<FileProgress>, was: seq<FileProgress>, total: int) {
    && |files| == |was|
    && forall k | 0 <= k < |files| ::
         files[k] == FileProgress(was[k].length, Clamp(total - Lengths(was[..k]), was[k].length))
  }

  lemma NoLengths()
    ensures Lengths([]) == 0
  {
  }

  lemma LengthsStep(files: seq<FileProgress>, i: nat)
    requires i < |files|
    ensures Lengths(files[..i + 1]) == Lengths(files[..i]) + files[i].length
  {
    assert files[..i + 1][..i] == files[..i];
  }

  method ApplyCompletedToFiles(files: array<FileProgress>, total: int)
    modifies files
    ensures Filled(files[..], old(files[..]), total)
  {
    hide Lengths;
    NoLengths();
    var remaining := total;
    ghost var was := files[..];
    for i := 0 to files.Length
      invariant forall k | 0 <= k < i ::
        files[k] == FileProgress(was[k].length, Clamp(total - Lengths(was[..k]), was[k].length))
      invariant forall k | i <= k < files.Length :: files[k] == was[k]
      invariant remaining <= 0 ==> total <= Lengths(was[..i])
      invariant remaining > 0 ==> remaining == total - Lengths(was[..i])
    {
      LengthsStep(was, i);
      files[i] := files[i].(completed := 0);
      if remaining <= 0 {
        continue;
      }
      if remaining >= files[i].length {
        files[i] := files[i].(completed := files[i].length);
        remaining := remaining - files[i].length;
        continue;
      }
      files[i] := files[i].(completed := remaining);
      remaining := 0;
    }
  }

  /**
   Filling is conservative: the files together get `total` bytes or all they can hold,
   no file more than its length, and a file gets something only when those before it are full.
   */
  lemma {:induction false} FillConserves(files: seq<FileProgress>, was: seq<FileProgress>, total: int)
    requires Filled(files, was, total)
    ensures CompletedSum(files) == Clamp(total, Lengths(was)) && Lengths(files) == Lengths(was)
    ensures forall k | 0 <= k < |files| :: 0 <= files[k].completed <= files[k].length
    ensures forall k, m | 0 <= k < m < |files| && files[m].completed > 0 :: files[k].completed == files[k].length
  {
    FillSum(files, was, total);
    hide Lengths;
    forall k, m | 0 <= k < m < |files| && files[m].completed > 0 ensures files[k].completed == files[k].length {
      LengthsGrow(was, k, m);
    }
  }

  lemma {:induction false} FillSum(files: seq<FileProgress>, was: seq<FileProgress>, total: int)
    requires Filled(files, was, total)
    ensures CompletedSum(files) == Clamp(total, Lengths(was)) && Lengths(files) == Lengths(was)
  {
    if files != [] {
      var n := |files| - 1;
      FilledFront(files, was, total, n);
      FillSum(files[..n], was[..n], total);
    }
  }

  lemma FilledFront(files: seq<FileProgress>, was: seq<FileProgress>, total: int, n: nat)
    requires Filled(files, was, total) && n <= |files|
    ensures Filled(files[..n], was[..n], total)
  {
    forall k | 0 <= k < n ensures was[..n][..k] == was[..k] {
    }
  }

  lemma {:induction false} LengthsGrow(files: seq<FileProgress>, k: nat, m: nat)
    requires k < m <= |files|
    ensures Lengths(files[..k]) + files[k].length <= Lengths(files[..m])
  {
    hide Lengths;
    LengthsStep(files, m - 1);
    if k < m - 1 {
      LengthsGrow(files, k, m - 1);
    }
  }
}
