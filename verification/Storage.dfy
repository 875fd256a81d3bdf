/** The files of a torrent and the single byte string they stand for
    (src/download.rs, lines 73-77 and 526-611). */
module Storage {
  import opened IoPrimitives

  /** `bytes` is what the file physically holds; it may be shorter or longer than
      the declared `length`. */
  datatype DownloadFile = DownloadFile(length: nat, bytes: seq<byte>)

  function Min(a: nat, b: nat): nat { if a <= b then a else b }

  function Zeros(n: nat): (r: seq<byte>)
    ensures |r| == n
  {
    seq(n, _ => 0)
  }

  /** Seek to `offset` and read at most `n` bytes. */
  function ReadAt(bytes: seq<byte>, offset: nat, n: nat): seq<byte> {
    bytes[Min(offset, |bytes|)..Min(offset + n, |bytes|)]
  }

  /** Seek to `offset` and write `data`; a gap past the end is filled with zeros. */
  function WriteAt(bytes: seq<byte>, offset: nat, data: seq<byte>): seq<byte> {
    if data == [] then bytes
    else
      var base := if |bytes| < offset then bytes + Zeros(offset - |bytes|) else bytes;
      base[..offset] + data + base[Min(offset + |data|, |base|)..]
  }

  /** The file as the torrent sees it: exactly `length` bytes. */
  function Padded(f: DownloadFile): (r: seq<byte>)
    ensures |r| == f.length
  {
    if f.length <= |f.bytes| then f.bytes[..f.length] else f.bytes + Zeros(f.length - |f.bytes|)
  }

  /** The first `n` files, each padded or cut to its declared length, end to end. */
  function FlatTo(files: seq<DownloadFile>, n: nat): seq<byte>
    requires n <= |files|
  {
    if n == 0 then [] else FlatTo(files, n - 1) + Padded(files[n - 1])
  }

  /** The whole torrent as one byte string. */
  function Flat(files: seq<DownloadFile>): seq<byte> { FlatTo(files, |files|) }

  /** `s` with `data` laid over it from `offset` on; what sticks out is cut off. */
  function Splice(s: seq<byte>, offset: nat, data: seq<byte>): (r: seq<byte>)
    requires offset <= |s|
    ensures |r| == |s|
  {
    var n := Min(|data|, |s| - offset);
    s[..offset] + data[..n] + s[offset + n..]
  }

  /** A splice, byte by byte. */
  lemma SplicedAt(s: seq<byte>, offset: nat, data: seq<byte>, k: nat)
    requires offset <= |s| && k < |s|
    ensures Splice(s, offset, data)[k] == if offset <= k < offset + |data| then data[k - offset] else s[k]
  {
  }

  lemma {:induction false} FlatPrefix(files: seq<DownloadFile>, i: nat, n: nat)
    requires i <= n <= |files|
    ensures FlatTo(files, i) <= FlatTo(files, n)
  {
    if i < n {
      FlatPrefix(files, i, n - 1);
    }
  }

  /** File `i` holds the stretch of the flat string that follows the files before it. */
  lemma FlatAround(files: seq<DownloadFile>, i: nat)
    requires i < |files|
    ensures var start := |FlatTo(files, i)|;
            start + files[i].length == |FlatTo(files, i + 1)| <= |Flat(files)| &&
            Flat(files)[start..start + files[i].length] == Padded(files[i])
  {
    FlatPrefix(files, i + 1, |files|);
    assert FlatTo(files, i + 1)[|FlatTo(files, i)|..] == Padded(files[i]);
  }

  /** Where file `i` starts: after the declared lengths of the files before it. */
  function StartOf(files: seq<DownloadFile>, i: nat): nat
    requires i <= |files|
  {
    if i == 0 then 0 else StartOf(files, i - 1) + files[i - 1].length
  }

  lemma {:induction false} StartIs(files: seq<DownloadFile>, i: nat)
    requires i <= |files|
    ensures |FlatTo(files, i)| == StartOf(files, i)
  {
    if i != 0 {
      StartIs(files, i - 1);
    }
  }

  /** The flat string, byte by byte: byte `x` of file `i`, or a zero past what the file holds. */
  lemma FlatByte(files: seq<DownloadFile>, i: nat, x: nat)
    requires i < |files| && x < files[i].length
    ensures StartOf(files, i) + x < |Flat(files)| == StartOf(files, |files|)
    ensures Flat(files)[StartOf(files, i) + x] == if x < |files[i].bytes| then files[i].bytes[x] else 0
  {
    StartIs(files, i);
    StartIs(files, |files|);
    FlatAround(files, i);
    var start := |FlatTo(files, i)|;
    assert Flat(files)[start..start + files[i].length][x] == Padded(files[i])[x];
  }

  /** Reading and zero-padding gives a slice of the padded file. */
  lemma ReadIsSlice(f: DownloadFile, offset: nat, n: nat)
    requires offset + n <= f.length
    ensures var data := ReadAt(f.bytes, offset, n);
            |data| <= n && data + Zeros(n - |data|) == Padded(f)[offset..offset + n]
  {
  }

  /** Writing inside the declared length splices the padded file. */
  lemma WriteIsSplice(f: DownloadFile, offset: nat, data: seq<byte>)
    requires offset + |data| <= f.length
    ensures var f' := f.(bytes := WriteAt(f.bytes, offset, data));
            Padded(f') == Splice(Padded(f), offset, data)
    ensures |f.bytes| <= |WriteAt(f.bytes, offset, data)| <= if |f.bytes| <= f.length then f.length else |f.bytes|
  {
    var f' := f.(bytes := WriteAt(f.bytes, offset, data));
    forall k | 0 <= k < f.length ensures Padded(f')[k] == Splice(Padded(f), offset, data)[k] {
      SplicedAt(Padded(f), offset, data, k);
      WrittenAt(f.bytes, offset, data, k);
    }
    hide Splice, Padded, WriteAt;
  }

  /** A written file, byte by byte: the data, what was there before, or a zero. */
  lemma WrittenAt(bytes: seq<byte>, offset: nat, data: seq<byte>, k: nat)
    ensures var bytes' := WriteAt(bytes, offset, data);
            (if k < |bytes'| then bytes'[k] else 0) ==
            if offset <= k < offset + |data| then data[k - offset] else if k < |bytes| then bytes[k] else 0
  {
  }

  /** Splicing inside file `i` splices the flat string. */
  lemma {:induction false} FlatUpdate(files: seq<DownloadFile>, i: nat, f: DownloadFile,
                                      at: nat, data: seq<byte>, n: nat)
    requires i < n <= |files| && f.length == files[i].length
    requires |FlatTo(files, i)| <= at && at + |data| <= |FlatTo(files, i)| + f.length
    requires Padded(f) == Splice(Padded(files[i]), at - |FlatTo(files, i)|, data)
    ensures at + |data| <= |FlatTo(files, n)|
    ensures FlatTo(files[i := f], n) == Splice(FlatTo(files, n), at, data)
  {
    hide Splice, Padded;
    var before, last := FlatTo(files, n - 1), Padded(files[n - 1]);
    if n == i + 1 {
      FlatSame(files, files[i := f], i);
      SpliceRight(before, last, at - |before|, data);
    } else {
      FlatUpdate(files, i, f, at, data, n - 1);
      SpliceLeft(before, last, at, data);
    }
  }

  lemma SpliceRight(s: seq<byte>, t: seq<byte>, offset: nat, data: seq<byte>)
    requires offset + |data| <= |t|
    ensures s + Splice(t, offset, data) == Splice(s + t, |s| + offset, data)
  {
  }

  lemma SpliceLeft(s: seq<byte>, t: seq<byte>, offset: nat, data: seq<byte>)
    requires offset + |data| <= |s|
    ensures Splice(s, offset, data) + t == Splice(s + t, offset, data)
  {
  }

  lemma {:induction false} FlatSame(files: seq<DownloadFile>, files': seq<DownloadFile>, n: nat)
    requires n <= |files| && n <= |files'| && files[..n] == files'[..n]
    ensures FlatTo(files, n) == FlatTo(files', n)
  {
    if n != 0 {
      assert files[n - 1] == files[..n][n - 1] == files'[n - 1];
      FlatSame(files, files', n - 1);
    }
  }

  /** Reading back a splice: every byte of any range is the new one where it was written and
      the old one elsewhere; so the written range returns the data and a disjoint range is
      unchanged. */
  lemma ReadAfterWrite(s: seq<byte>, offset: nat, data: seq<byte>, from: nat, n: nat)
    requires offset + |data| <= |s| && from + n <= |s|
    ensures var r := Splice(s, offset, data)[from..from + n];
            forall k :: 0 <= k < n ==>
              r[k] == if offset <= from + k < offset + |data| then data[from + k - offset] else s[from + k]
    ensures Splice(s, offset, data)[offset..offset + |data|] == data
    ensures from + n <= offset || offset + |data| <= from ==>
              Splice(s, offset, data)[from..from + n] == s[from..from + n]
  {
  }
}
