/** The Windows icon file (`icon-export.ts`): a header, a directory with one 16-byte entry an image,
    and the images one after another. */
module IconEncoding {
  import opened Prelude

  type Byte = b: int | 0 <= b < 256

  /** A number that is whole, or one that is not. */
  datatype Size = Whole(value: int) | Fractional

  datatype Image = Image(size: Size, contents: seq<Byte>)

  datatype IconError = NoImages | BadSize(size: Size) | DuplicateSize(size: Size) | EmptyImage(size: Size) | OutOfRange

  const HEADER_SIZE: nat := 6
  const ENTRY_SIZE: nat := 16
  const TWO_TO_32: nat := 0x1_0000_0000

  // ----- What is refused -----

  predicate GoodSize(size: Size) {
    size.Whole? && 1 <= size.value <= 256
  }

  /** The first thing wrong with the images from `i` on, given the sizes before. */
  function FirstError(images: seq<Image>, i: nat, seen: set<Size>): Option<IconError>
    requires i <= |images|
    decreases |images| - i
  {
    if i == |images| then None
    else if !GoodSize(images[i].size) then Some(BadSize(images[i].size))
    else if images[i].size in seen then Some(DuplicateSize(images[i].size))
    else if images[i].contents == [] then Some(EmptyImage(images[i].size))
    else FirstError(images, i + 1, seen + {images[i].size})
  }

  predicate Acceptable(images: seq<Image>) {
    && images != []
    && (forall i :: 0 <= i < |images| ==> GoodSize(images[i].size) && images[i].contents != [])
    && (forall i, j :: 0 <= i < j < |images| ==> images[i].size != images[j].size)
  }

  lemma {:induction false} NoErrorExactly(images: seq<Image>, i: nat, seen: set<Size>)
    requires i <= |images|
    ensures FirstError(images, i, seen) == None <==>
      && (forall k :: i <= k < |images| ==> GoodSize(images[k].size) && images[k].contents != [] && images[k].size !in seen)
      && (forall k, l :: i <= k < l < |images| ==> images[k].size != images[l].size)
    decreases |images| - i
  {
    if i < |images| {
      NoErrorExactly(images, i + 1, seen + {images[i].size});
    }
  }

  /** Otherwise the error is of the first image that something is wrong with, and names the first thing: a size
      that is not whole or out of range, then one that was given before, then an empty image. */
  lemma {:induction false} FirstErrorIs(images: seq<Image>, i: nat, seen: set<Size>) returns (k: nat)
    requires i <= |images| && FirstError(images, i, seen).Some?
    ensures i <= k < |images| && (forall j :: i <= j < k ==> GoodSize(images[j].size) && images[j].contents != [])
    ensures forall j :: i <= j < k ==> images[j].size !in seen && forall l :: i <= l < j ==> images[l].size != images[j].size
    ensures FirstError(images, i, seen) == Some(
      if !GoodSize(images[k].size) then BadSize(images[k].size)
      else if images[k].size in seen || exists j :: i <= j < k && images[j].size == images[k].size then DuplicateSize(images[k].size)
      else EmptyImage(images[k].size))
    ensures GoodSize(images[k].size) && images[k].size !in seen && (forall j :: i <= j < k ==> images[j].size != images[k].size) ==> images[k].contents == []
    decreases |images| - i
  {
    k := i;
    if GoodSize(images[i].size) && images[i].size !in seen && images[i].contents != [] {
      k := FirstErrorIs(images, i + 1, seen + {images[i].size});
    }
  }

  // ----- The file -----

  /** Remainder and quotient by 256, by counting down: proofs use only the law that joins them, and the
      solver never meets a division. */
  function Low(value: nat): Byte {
    if value < 256 then value else Low(value - 256)
  }

  function High(value: nat): nat {
    if value < 256 then 0 else 1 + High(value - 256)
  }

  lemma {:induction false} LowAndHighAre(value: nat)
    ensures Low(value) == value % 256 && High(value) == value / 256
  {
    if value >= 256 {
      LowAndHighAre(value - 256);
    }
  }

  /** The number with that remainder and quotient. */
  function Joined(low: nat, high: nat): nat {
    if high == 0 then low else 256 + Joined(low, high - 1)
  }

  lemma {:induction false} JoinedIs(low: nat, high: nat)
    ensures Joined(low, high) == low + 256 * high
  {
    if high > 0 {
      JoinedIs(low, high - 1);
    }
  }

  lemma {:induction false} LowAndHigh(value: nat)
    ensures Joined(Low(value), High(value)) == value
  {
    if value >= 256 {
      LowAndHigh(value - 256);
    }
  }

  lemma HighBound(value: nat, bound: nat)
    requires value < 256 * bound
    ensures High(value) < bound
  {
    LowAndHigh(value);
    JoinedIs(Low(value), High(value));
  }

  /** A number in the given count of bytes, the lowest first. */
  function LittleEndian(value: nat, width: nat): (bytes: seq<Byte>)
    ensures |bytes| == width
    decreases width
  {
    if width == 0 then [] else [Low(value)] + LittleEndian(High(value), width - 1)
  }

  /** The length of the first `k` images. */
  function LengthOf(images: seq<Image>, k: nat): nat
    requires k <= |images|
  {
    if k == 0 then 0 else LengthOf(images, k - 1) + |images[k - 1].contents|
  }

  /** Where the payload of image `k` starts. */
  function Offset(images: seq<Image>, k: nat): nat
    requires k <= |images|
  {
    HEADER_SIZE + ENTRY_SIZE * |images| + LengthOf(images, k)
  }

  /** 256 does not fit a byte and is written as 0. */
  function SizeByte(size: Size): Byte
    requires GoodSize(size)
  {
    if size.value == 256 then 0 else size.value
  }

  /** An entry: width and height, no palette, one plane, 32 bits a pixel, length and offset. */
  function EntryByte(image: Image, offset: nat, i: nat): Byte
    requires GoodSize(image.size) && i < ENTRY_SIZE
  {
    if i < 2 then SizeByte(image.size)
    else if i == 4 then 1
    else if i == 6 then 32
    else if 8 <= i < 12 then LittleEndian(|image.contents|, 4)[i - 8]
    else if 12 <= i then LittleEndian(offset, 4)[i - 12]
    else 0
  }

  function DirectoryEntry(image: Image, offset: nat): seq<Byte>
    requires GoodSize(image.size)
  {
    seq(ENTRY_SIZE, i requires 0 <= i < ENTRY_SIZE => EntryByte(image, offset, i))
  }

  predicate GoodSizes(images: seq<Image>) {
    forall i :: 0 <= i < |images| ==> GoodSize(images[i].size)
  }

  /** The first `k` directory entries. */
  function Directory(images: seq<Image>, k: nat): (directory: seq<Byte>)
    requires k <= |images| && GoodSizes(images)
    ensures |directory| == ENTRY_SIZE * k
  {
    if k == 0 then [] else Directory(images, k - 1) + DirectoryEntry(images[k - 1], Offset(images, k - 1))
  }

  /** The first `k` images, one after another. */
  function Payloads(images: seq<Image>, k: nat): (payloads: seq<Byte>)
    requires k <= |images|
    ensures |payloads| == LengthOf(images, k)
  {
    if k == 0 then [] else Payloads(images, k - 1) + images[k - 1].contents
  }

  function Header(count: nat): seq<Byte> {
    LittleEndian(0, 2) + LittleEndian(1, 2) + LittleEndian(count, 2)
  }

  function File(images: seq<Image>): seq<Byte>
    requires GoodSizes(images)
  {
    Header(|images|) + Directory(images, |images|) + Payloads(images, |images|)
  }

  /** Every length and offset written for the first `k` images fits four bytes. */
  predicate FitsUpTo(images: seq<Image>, k: nat)
    requires k <= |images|
  {
    forall j :: 0 <= j < k ==> |images[j].contents| < TWO_TO_32 && Offset(images, j) < TWO_TO_32
  }

  predicate Fits(images: seq<Image>) { FitsUpTo(images, |images|) }

  // ----- Distinct sizes bound the count -----

  lemma {:induction false} Pigeonhole(sizes: set<int>, n: nat)
    requires forall s <- sizes :: 1 <= s <= n
    ensures |sizes| <= n
  {
    if n > 0 {
      assert forall s <- sizes - {n} :: 1 <= s <= n - 1;
      Pigeonhole(sizes - {n}, n - 1);
    } else {
      assert forall s :: s !in sizes;
    }
  }

  lemma {:induction false} SizesAreDistinct(images: seq<Image>) returns (sizes: set<int>)
    requires forall i :: 0 <= i < |images| ==> GoodSize(images[i].size)
    requires forall i, j :: 0 <= i < j < |images| ==> images[i].size != images[j].size
    ensures |sizes| == |images|
    ensures forall s <- sizes :: exists i :: 0 <= i < |images| && images[i].size == Whole(s)
  {
    if images == [] {
      sizes := {};
    } else {
      var front := images[..|images| - 1];
      var before := SizesAreDistinct(front);
      var last := images[|images| - 1].size.value;
      sizes := before + {last};
      forall s <- sizes
        ensures exists i :: 0 <= i < |images| && images[i].size == Whole(s)
      {
        if s in before {
          var i :| 0 <= i < |front| && front[i].size == Whole(s);
          assert images[i].size == Whole(s);
        } else {
          assert images[|images| - 1].size == Whole(s);
        }
      }
    }
  }

  /** So the count always fits the two bytes it is written in. */
  lemma CountFits(images: seq<Image>)
    requires Acceptable(images)
    ensures |images| <= 256
  {
    var sizes := SizesAreDistinct(images);
    forall s <- sizes
      ensures 1 <= s <= 256
    {
      var i :| 0 <= i < |images| && images[i].size == Whole(s);
    }
    Pigeonhole(sizes, 256);
  }

  // ----- Writing -----

  lemma TwoBytes(value: nat)
    ensures LittleEndian(value, 2) == [Low(value), Low(High(value))]
  {
    assert LittleEndian(High(value), 1) == [Low(High(value))] + LittleEndian(High(High(value)), 0);
  }

  lemma FourBytes(value: nat)
    ensures LittleEndian(value, 4) == [Low(value), Low(High(value)), Low(High(High(value))), Low(High(High(High(value))))]
  {
    TwoBytes(High(High(value)));
    assert LittleEndian(High(value), 3) == [Low(High(value))] + LittleEndian(High(High(value)), 2);
  }

  method WriteUInt8(buffer: array<Byte>, value: Byte, at: nat)
    requires at < buffer.Length
    modifies buffer
    ensures buffer[..at + 1] == old(buffer[..at]) + [value]
  {
    buffer[at] := value;
  }

  method WriteUInt16LE(buffer: array<Byte>, value: nat, at: nat)
    requires at + 2 <= buffer.Length && value < 0x1_0000
    modifies buffer
    ensures buffer[..at + 2] == old(buffer[..at]) + LittleEndian(value, 2)
  {
    TwoBytes(value);
    buffer[at], buffer[at + 1] := Low(value), Low(High(value));
  }

  method WriteUInt32LE(buffer: array<Byte>, value: nat, at: nat)
    requires at + 4 <= buffer.Length && value < TWO_TO_32
    modifies buffer
    ensures buffer[..at + 4] == old(buffer[..at]) + LittleEndian(value, 4)
  {
    FourBytes(value);
    buffer[at], buffer[at + 1] := Low(value), Low(High(value));
    buffer[at + 2], buffer[at + 3] := Low(High(High(value))), Low(High(High(High(value))));
  }

  method WriteEntry(buffer: array<Byte>, image: Image, offset: nat, at: nat)
    requires at + ENTRY_SIZE <= buffer.Length && GoodSize(image.size)
    requires |image.contents| < TWO_TO_32 && offset < TWO_TO_32
    modifies buffer
    ensures buffer[..at + ENTRY_SIZE] == old(buffer[..at]) + DirectoryEntry(image, offset)
  {
    ghost var head := buffer[..at];
    var encodedSize: Byte := if image.size.value == 256 then 0 else image.size.value;
    WriteUInt8(buffer, encodedSize, at);
    WriteUInt8(buffer, encodedSize, at + 1);
    WriteUInt8(buffer, 0, at + 2);
    WriteUInt8(buffer, 0, at + 3);
    WriteUInt16LE(buffer, 1, at + 4);
    WriteUInt16LE(buffer, 32, at + 6);
    WriteUInt32LE(buffer, |image.contents|, at + 8);
    WriteUInt32LE(buffer, offset, at + 12);
    EntryInPieces(head, image, offset);
  }

  lemma SmallTwoBytes(value: nat)
    requires value < 256
    ensures LittleEndian(value, 2) == [value, 0]
  {
    TwoBytes(value);
  }

  lemma EntryIs(image: Image, offset: nat)
    requires GoodSize(image.size)
    ensures DirectoryEntry(image, offset)
         == [SizeByte(image.size), SizeByte(image.size), 0, 0, 1, 0, 32, 0] + LittleEndian(|image.contents|, 4) + LittleEndian(offset, 4)
  {
  }

  lemma Pieces(head: seq<Byte>, size: Byte, length: seq<Byte>, at: seq<Byte>)
    ensures head + ([size, size, 0, 0, 1, 0, 32, 0] + length + at) == head + [size] + [size] + [0] + [0] + [1, 0] + [32, 0] + length + at
  {
    assert [size, size, 0, 0, 1, 0, 32, 0] == [size] + [size] + [0] + [0] + [1, 0] + [32, 0];
  }

  lemma EntryInPieces(head: seq<Byte>, image: Image, offset: nat)
    requires GoodSize(image.size)
    ensures var size := SizeByte(image.size);
      head + DirectoryEntry(image, offset)
      == head + [size] + [size] + [0] + [0] + LittleEndian(1, 2) + LittleEndian(32, 2) + LittleEndian(|image.contents|, 4) + LittleEndian(offset, 4)
  {
    SmallTwoBytes(1);
    SmallTwoBytes(32);
    EntryIs(image, offset);
    Pieces(head, SizeByte(image.size), LittleEndian(|image.contents|, 4), LittleEndian(offset, 4));
  }

  /** The checks, in the order the images are given. */
  method Check(images: seq<Image>) returns (error: Option<IconError>)
    ensures error == if images == [] then Some(NoImages) else FirstError(images, 0, {})
  {
    if images == [] {
      return Some(NoImages);
    }
    var seen: set<Size> := {};
    for i := 0 to |images|
      invariant FirstError(images, 0, {}) == FirstError(images, i, seen)
    {
      var image := images[i];
      if !GoodSize(image.size) {
        return Some(BadSize(image.size));
      }
      if image.size in seen {
        return Some(DuplicateSize(image.size));
      }
      if image.contents == [] {
        return Some(EmptyImage(image.size));
      }
      seen := seen + {image.size};
    }
    error := None;
  }

  /** The header is as it was, and the first `k` entries follow it. */
  ghost predicate WrittenUpTo(buffer: array<Byte>, head: seq<Byte>, images: seq<Image>, k: nat)
    requires buffer.Length == HEADER_SIZE + ENTRY_SIZE * |images| && GoodSizes(images) && k <= |images|
    reads buffer
  {
    buffer[..HEADER_SIZE + ENTRY_SIZE * k] == head + Directory(images, k)
  }

  /** The body of the loop below. */
  method WriteNextEntry(buffer: array<Byte>, images: seq<Image>, k: nat, imageOffset: nat, ghost head: seq<Byte>)
    returns (ok: bool)
    requires buffer.Length == HEADER_SIZE + ENTRY_SIZE * |images| && GoodSizes(images) && k < |images|
    requires imageOffset == Offset(images, k)
    requires WrittenUpTo(buffer, head, images, k) && FitsUpTo(images, k)
    modifies buffer
    ensures ok <==> FitsUpTo(images, k + 1)
    ensures ok ==> WrittenUpTo(buffer, head, images, k + 1)
  {
    DirectoryGrows(head, images, k);
    if |images[k].contents| >= TWO_TO_32 || imageOffset >= TWO_TO_32 {
      return false;
    }
    WriteEntry(buffer, images[k], imageOffset, HEADER_SIZE + ENTRY_SIZE * k);
    ok := true;
  }

  lemma UnfitStaysUnfit(images: seq<Image>, k: nat)
    requires k <= |images| && !FitsUpTo(images, k)
    ensures !Fits(images)
  {
  }

  /** Writes one entry an image into the buffer after the header, unless a length or an offset does not
      fit four bytes. */
  method WriteDirectory(buffer: array<Byte>, images: seq<Image>) returns (ok: bool)
    requires buffer.Length == HEADER_SIZE + ENTRY_SIZE * |images| && GoodSizes(images)
    modifies buffer
    ensures ok <==> Fits(images)
    ensures ok ==> WrittenUpTo(buffer, old(buffer[..HEADER_SIZE]), images, |images|)
  {
    var imageOffset := buffer.Length;
    ghost var head := buffer[..HEADER_SIZE];
    for k := 0 to |images|
      invariant imageOffset == Offset(images, k)
      invariant FitsUpTo(images, k) && WrittenUpTo(buffer, head, images, k)
    {
      ok := WriteNextEntry(buffer, images, k, imageOffset, head);
      if !ok {
        UnfitStaysUnfit(images, k + 1);
        return;
      }
      imageOffset := imageOffset + |images[k].contents|;
    }
    ok := true;
  }

  lemma DirectoryGrows(head: seq<Byte>, images: seq<Image>, k: nat)
    requires GoodSizes(images) && k < |images|
    ensures (head + Directory(images, k)) + DirectoryEntry(images[k], Offset(images, k)) == head + Directory(images, k + 1)
    ensures Offset(images, k + 1) == Offset(images, k) + |images[k].contents|
    ensures FitsUpTo(images, k + 1) <==> FitsUpTo(images, k) && |images[k].contents| < TWO_TO_32 && Offset(images, k) < TWO_TO_32
    ensures Fits(images) ==> FitsUpTo(images, k + 1)
  {
    Regroup(head, Directory(images, k), DirectoryEntry(images[k], Offset(images, k)));
  }

  lemma Regroup(a: seq<Byte>, b: seq<Byte>, c: seq<Byte>)
    ensures (a + b) + c == a + (b + c)
  {
  }

  /** The reserved word, the type and the count. */
  method WriteHeader(buffer: array<Byte>, count: nat)
    requires HEADER_SIZE <= buffer.Length && count < 0x1_0000
    modifies buffer
    ensures buffer[..HEADER_SIZE] == Header(count)
  {
    WriteUInt16LE(buffer, 0, 0);
    WriteUInt16LE(buffer, 1, 2);
    WriteUInt16LE(buffer, count, 4);
  }

  lemma FileFromParts(buffer: array<Byte>, images: seq<Image>)
    requires buffer.Length == HEADER_SIZE + ENTRY_SIZE * |images| && GoodSizes(images)
    requires WrittenUpTo(buffer, Header(|images|), images, |images|)
    ensures buffer[..] + Payloads(images, |images|) == File(images)
  {
    assert buffer[..buffer.Length] == buffer[..];
  }

  /** The file of images that passed the checks, if their lengths and offsets fit. */
  method EncodeChecked(images: seq<Image>) returns (file: Option<seq<Byte>>)
    requires GoodSizes(images) && |images| < 0x1_0000
    ensures file == if Fits(images) then Some(File(images)) else None
  {
    var header := new Byte[HEADER_SIZE + ENTRY_SIZE * |images|](_ => 0);
    WriteHeader(header, |images|);
    var written := WriteDirectory(header, images);
    if !written {
      return None;
    }
    FileFromParts(header, images);
    file := Some(header[..] + Payloads(images, |images|));
  }

  /** `encodePngIco`: the file, or the first error; a length or offset past four bytes is one, which the
      buffer raises when it is written. */
  method EncodePngIco(images: seq<Image>) returns (result: Result<seq<Byte>, IconError>)
    ensures result.Ok? <==> Acceptable(images) && Fits(images)
    ensures result.Ok? ==> result.value == File(images)
    ensures result.Err? ==>
      result.error == if images == [] then NoImages else if FirstError(images, 0, {}).Some? then FirstError(images, 0, {}).value else OutOfRange
  {
    var error := Check(images);
    NoErrorExactly(images, 0, {});
    if error.Some? {
      return Err(error.value);
    }
    CountFits(images);
    var file := EncodeChecked(images);
    result := if file.Some? then Ok(file.value) else Err(OutOfRange);
  }

  // ----- Reading -----

  function ReadUInt16(file: seq<Byte>, at: nat): nat
    requires at + 2 <= |file|
  {
    Joined(file[at], file[at + 1])
  }

  function ReadUInt32(file: seq<Byte>, at: nat): nat
    requires at + 4 <= |file|
  {
    Joined(file[at], Joined(file[at + 1], Joined(file[at + 2], file[at + 3])))
  }

  /** The entry of a square image without a palette, of one plane and 32 bits a pixel. */
  predicate IsPngEntry(file: seq<Byte>, at: nat)
    requires at + 16 <= |file|
  {
    && file[at + 1] == file[at] && file[at + 2] == 0 && file[at + 3] == 0
    && ReadUInt16(file, at + 4) == 1 && ReadUInt16(file, at + 6) == 32
  }

  /** One image of an icon file, found through its directory entry. */
  function ReadImage(file: seq<Byte>, k: nat): Option<Image> {
    var at := HEADER_SIZE + ENTRY_SIZE * k;
    if at + ENTRY_SIZE > |file| || !IsPngEntry(file, at) then None
    else
      var length, offset := ReadUInt32(file, at + 8), ReadUInt32(file, at + 12);
      if offset + length > |file| then None
      else Some(Image(Whole(if file[at] == 0 then 256 else file[at]), file[offset..offset + length]))
  }

  function ReadImages(file: seq<Byte>, count: nat): Option<seq<Image>> {
    if count == 0 then Some([])
    else
      var front, last := ReadImages(file, count - 1), ReadImage(file, count - 1);
      if front.Some? && last.Some? then Some(front.value + [last.value]) else None
  }

  /** A reader of the format: reserved word 0, type 1, a count, and that many entries. */
  function Decode(file: seq<Byte>): Option<seq<Image>> {
    if |file| < HEADER_SIZE || ReadUInt16(file, 0) != 0 || ReadUInt16(file, 2) != 1 then None
    else ReadImages(file, ReadUInt16(file, 4))
  }

  lemma LowOfByte(value: nat)
    requires value < 256
    ensures Low(value) == value
  {
  }

  lemma TwoBytesRead(value: nat)
    requires value < 0x1_0000
    ensures ReadUInt16(LittleEndian(value, 2), 0) == value
  {
    TwoBytes(value);
    HighBound(value, 256);
    LowOfByte(High(value));
    LowAndHigh(value);
  }

  lemma FourBytesRead(value: nat)
    requires value < TWO_TO_32
    ensures ReadUInt32(LittleEndian(value, 4), 0) == value
  {
    FourBytes(value);
    HighBound(value, 0x100_0000);
    HighBound(High(value), 0x1_0000);
    HighBound(High(High(value)), 256);
    LowOfByte(High(High(High(value))));
    LowAndHigh(High(High(value)));
    LowAndHigh(High(value));
    LowAndHigh(value);
  }

  // ----- Reading undoes writing -----

  lemma {:induction false} EntryInDirectory(images: seq<Image>, k: nat, j: nat)
    requires j < k <= |images| && GoodSizes(images)
    ensures Directory(images, k)[ENTRY_SIZE * j..ENTRY_SIZE * (j + 1)] == DirectoryEntry(images[j], Offset(images, j))
  {
    var front, entry := Directory(images, k - 1), DirectoryEntry(images[k - 1], Offset(images, k - 1));
    if j == k - 1 {
      assert (front + entry)[ENTRY_SIZE * j..ENTRY_SIZE * (j + 1)] == entry;
    } else {
      EntryInDirectory(images, k - 1, j);
      assert (front + entry)[ENTRY_SIZE * j..ENTRY_SIZE * (j + 1)] == front[ENTRY_SIZE * j..ENTRY_SIZE * (j + 1)];
    }
  }

  lemma {:induction false} PayloadInPayloads(images: seq<Image>, k: nat, j: nat)
    requires j < k <= |images|
    ensures LengthOf(images, j) + |images[j].contents| <= LengthOf(images, k)
    ensures Payloads(images, k)[LengthOf(images, j)..LengthOf(images, j) + |images[j].contents|] == images[j].contents
  {
    var front, last := Payloads(images, k - 1), images[k - 1].contents;
    var from, to := LengthOf(images, j), LengthOf(images, j) + |images[j].contents|;
    if j == k - 1 {
      assert (front + last)[from..to] == last;
    } else {
      PayloadInPayloads(images, k - 1, j);
      assert (front + last)[from..to] == front[from..to];
    }
  }

  /** The entries' regions tile the file after the directory: the first starts where the directory ends,
      each next one where the one before ends, and the last ends the file. */
  lemma RegionsTile(images: seq<Image>)
    requires GoodSizes(images)
    ensures |Header(|images|)| == HEADER_SIZE
    ensures Offset(images, 0) == HEADER_SIZE + |Directory(images, |images|)|
    ensures forall k :: 0 <= k < |images| ==> Offset(images, k + 1) == Offset(images, k) + |images[k].contents|
    ensures Offset(images, |images|) == |File(images)|
  {
  }

  lemma SliceOfSlice(file: seq<Byte>, a: nat, b: nat, c: nat, d: nat)
    requires a <= b <= |file| && c <= d <= b - a
    ensures file[a..b][c..d] == file[a + c..a + d]
  {
    forall i | 0 <= i < d - c
      ensures file[a..b][c..d][i] == file[a + c..a + d][i]
    {
      assert file[a..b][c + i] == file[a + c + i];
    }
  }

  lemma ThreeParts(a: seq<Byte>, b: seq<Byte>, c: seq<Byte>)
    ensures var all := a + b + c; all[|a|..|a| + |b|] == b && all[|a| + |b|..|all|] == c
  {
  }

  /** Where things are in the file. */
  lemma FileParts(images: seq<Image>, j: nat)
    requires GoodSizes(images) && j < |images|
    ensures var file, at := File(images), HEADER_SIZE + ENTRY_SIZE * j;
      && at + ENTRY_SIZE <= |file| && Offset(images, j) + |images[j].contents| <= |file|
      && file[at..at + ENTRY_SIZE] == DirectoryEntry(images[j], Offset(images, j))
      && file[Offset(images, j)..Offset(images, j) + |images[j].contents|] == images[j].contents
  {
    var n := |images|;
    var file, header, directory, payloads := File(images), Header(n), Directory(images, n), Payloads(images, n);
    EntryInDirectory(images, n, j);
    PayloadInPayloads(images, n, j);
    var start := HEADER_SIZE + ENTRY_SIZE * n;
    ThreeParts(header, directory, payloads);
    SliceOfSlice(file, HEADER_SIZE, start, ENTRY_SIZE * j, ENTRY_SIZE * (j + 1));
    SliceOfSlice(file, start, |file|, LengthOf(images, j), LengthOf(images, j) + |images[j].contents|);
  }

  lemma SameUInt32(file: seq<Byte>, at: nat, bytes: seq<Byte>, o: nat)
    requires at + 4 <= |file| && o + 4 <= |bytes| && file[at..at + 4] == bytes[o..o + 4]
    ensures ReadUInt32(file, at) == ReadUInt32(bytes, o)
  {
    var slice := file[at..at + 4];
    assert slice[0] == file[at] && slice[1] == file[at + 1] && slice[2] == file[at + 2] && slice[3] == file[at + 3];
    assert slice == bytes[o..o + 4];
    assert slice[0] == bytes[o] && slice[1] == bytes[o + 1] && slice[2] == bytes[o + 2] && slice[3] == bytes[o + 3];
  }

  lemma EntryReads(entry: seq<Byte>, image: Image, offset: nat)
    requires GoodSize(image.size) && entry == DirectoryEntry(image, offset)
    requires |image.contents| < TWO_TO_32 && offset < TWO_TO_32
    ensures (if entry[0] == 0 then 256 else entry[0]) == image.size.value && IsPngEntry(entry, 0)
    ensures ReadUInt32(entry, 8) == |image.contents| && ReadUInt32(entry, 12) == offset
  {
    var length, start := LittleEndian(|image.contents|, 4), LittleEndian(offset, 4);
    FourBytesRead(|image.contents|);
    FourBytesRead(offset);
    assert entry[8..12] == length[0..4];
    SameUInt32(entry, 8, length, 0);
    assert entry[12..16] == start[0..4];
    SameUInt32(entry, 12, start, 0);
  }

  lemma ReadInSlice(file: seq<Byte>, at: nat, entry: seq<Byte>, o: nat)
    requires at + ENTRY_SIZE <= |file| && entry == file[at..at + ENTRY_SIZE] && o + 4 <= ENTRY_SIZE
    ensures ReadUInt32(file, at + o) == ReadUInt32(entry, o)
  {
    SliceOfSlice(file, at, at + ENTRY_SIZE, o, o + 4);
    SameUInt32(file, at + o, entry, o);
  }

  lemma ImageReads(file: seq<Byte>, image: Image, offset: nat, j: nat, entry: seq<Byte>)
    requires image.size.Whole? && offset + |image.contents| <= |file|
    requires HEADER_SIZE + ENTRY_SIZE * j + ENTRY_SIZE <= |file|
    requires entry == file[HEADER_SIZE + ENTRY_SIZE * j..HEADER_SIZE + ENTRY_SIZE * j + ENTRY_SIZE]
    requires (if entry[0] == 0 then 256 else entry[0]) == image.size.value && IsPngEntry(entry, 0)
    requires ReadUInt32(entry, 8) == |image.contents| && ReadUInt32(entry, 12) == offset
    requires file[offset..offset + |image.contents|] == image.contents
    ensures ReadImage(file, j) == Some(image)
  {
    var at := HEADER_SIZE + ENTRY_SIZE * j;
    assert forall i :: 0 <= i < ENTRY_SIZE ==> entry[i] == file[at + i];
    ReadInSlice(file, at, entry, 8);
    ReadInSlice(file, at, entry, 12);
  }

  lemma EntryIsRead(file: seq<Byte>, image: Image, offset: nat, j: nat)
    requires GoodSize(image.size) && |image.contents| < TWO_TO_32 && offset < TWO_TO_32 && offset + |image.contents| <= |file|
    requires HEADER_SIZE + ENTRY_SIZE * j + ENTRY_SIZE <= |file|
    requires file[HEADER_SIZE + ENTRY_SIZE * j..HEADER_SIZE + ENTRY_SIZE * j + ENTRY_SIZE] == DirectoryEntry(image, offset)
    requires file[offset..offset + |image.contents|] == image.contents
    ensures ReadImage(file, j) == Some(image)
  {
    EntryReads(DirectoryEntry(image, offset), image, offset);
    ImageReads(file, image, offset, j, DirectoryEntry(image, offset));
  }

  lemma ImageOfFileReads(images: seq<Image>, file: seq<Byte>, j: nat)
    requires GoodSizes(images) && Fits(images) && j < |images| && file == File(images)
    ensures ReadImage(file, j) == Some(images[j])
  {
    FileParts(images, j);
    EntryIsRead(file, images[j], Offset(images, j), j);
  }

  lemma {:induction false} ImagesRead(file: seq<Byte>, images: seq<Image>, k: nat)
    requires k <= |images| && forall j :: 0 <= j < k ==> ReadImage(file, j) == Some(images[j])
    ensures ReadImages(file, k) == Some(images[..k])
  {
    if k > 0 {
      ImagesRead(file, images, k - 1);
      assert images[..k] == images[..k - 1] + [images[k - 1]];
    }
  }

  lemma HeaderBytes(count: nat)
    ensures |Header(count)| == HEADER_SIZE
    ensures Header(count)[0] == 0 && Header(count)[1] == 0 && Header(count)[2] == 1 && Header(count)[3] == 0
    ensures Header(count)[4] == LittleEndian(count, 2)[0] && Header(count)[5] == LittleEndian(count, 2)[1]
  {
    TwoBytes(0);
    TwoBytes(1);
  }

  lemma SameUInt16(file: seq<Byte>, at: nat, bytes: seq<Byte>, o: nat)
    requires at + 2 <= |file| && o + 2 <= |bytes| && file[at] == bytes[o] && file[at + 1] == bytes[o + 1]
    ensures ReadUInt16(file, at) == ReadUInt16(bytes, o)
  {
  }

  lemma HeaderReads(count: nat)
    requires count < 0x1_0000
    ensures |Header(count)| == HEADER_SIZE
    ensures ReadUInt16(Header(count), 0) == 0 && ReadUInt16(Header(count), 2) == 1 && ReadUInt16(Header(count), 4) == count
  {
    HeaderBytes(count);
    TwoBytesRead(count);
    SameUInt16(Header(count), 4, LittleEndian(count, 2), 0);
  }

  lemma FileHeaderReads(images: seq<Image>, file: seq<Byte>)
    requires GoodSizes(images) && |images| < 0x1_0000 && file == File(images)
    ensures |file| >= HEADER_SIZE && ReadUInt16(file, 0) == 0 && ReadUInt16(file, 2) == 1 && ReadUInt16(file, 4) == |images|
  {
    var header, rest := Header(|images|), Directory(images, |images|) + Payloads(images, |images|);
    HeaderReads(|images|);
    assert file == header + rest;
    SameUInt16(file, 0, header, 0);
    SameUInt16(file, 2, header, 2);
    SameUInt16(file, 4, header, 4);
  }

  /** A reader of the format recovers every size and payload of an encoded file. */
  lemma DecodeUndoesEncode(images: seq<Image>)
    requires Acceptable(images) && Fits(images)
    ensures Decode(File(images)) == Some(images)
  {
    var file := File(images);
    CountFits(images);
    FileHeaderReads(images, file);
    forall j | 0 <= j < |images|
      ensures ReadImage(file, j) == Some(images[j])
    {
      ImageOfFileReads(images, file, j);
    }
    ImagesRead(file, images, |images|);
    assert images[..|images|] == images;
  }
}
