/** `_md5_file_hasher` and the `hash_bytes` / `hash_files` class methods of
    wandb/sdk/lib/hashutil.py. MD5 itself is a parameter `md5`, and the file
    system is a map from path to contents. */
module FileHashing {
  import opened Wrappers
  import opened Encodings
  import opened HashUtil
  import opened HashUtilProperties

  // ---------------------------------------------------------------------------
  // sorted() on strings
  // ---------------------------------------------------------------------------

  /** Python's string order: by code point, a prefix first. */
  predicate StrLe(a: string, b: string)
  {
    |a| == 0 || (|b| > 0 && (a[0] < b[0] || (a[0] == b[0] && StrLe(a[1..], b[1..]))))
  }

  lemma {:induction false} StrLeTotal(a: string, b: string)
    ensures StrLe(a, b) || StrLe(b, a)
  {
    if |a| > 0 && |b| > 0 && a[0] == b[0] {
      StrLeTotal(a[1..], b[1..]);
    }
  }

  lemma {:induction false} StrLeReflexive(a: string)
    ensures StrLe(a, a)
  {
    if |a| > 0 {
      StrLeReflexive(a[1..]);
    }
  }

  lemma {:induction false} StrLeAntisymmetric(a: string, b: string)
    requires StrLe(a, b) && StrLe(b, a)
    ensures a == b
  {
    if |a| > 0 && |b| > 0 {
      StrLeAntisymmetric(a[1..], b[1..]);
      assert a == [a[0]] + a[1..] && b == [b[0]] + b[1..];
    }
  }

  lemma {:induction false} StrLeTransitive(a: string, b: string, c: string)
    requires StrLe(a, b) && StrLe(b, c)
    ensures StrLe(a, c)
  {
    if |a| > 0 && a[0] == b[0] && b[0] == c[0] {
      StrLeTransitive(a[1..], b[1..], c[1..]);
    }
  }

  predicate Sorted(s: seq<string>)
  {
    forall i, j :: 0 <= i < j < |s| ==> StrLe(s[i], s[j])
  }

  /** `x` placed before the first element it does not exceed. */
  function Insert(x: string, s: seq<string>): (r: seq<string>)
    requires Sorted(s)
    ensures Sorted(r) && multiset(r) == multiset(s) + multiset{x}
  {
    if |s| == 0 then [x]
    else if StrLe(x, s[0]) then
      InsertFront(x, s);
      [x] + s
    else
      SortedTail(s);
      var rest := Insert(x, s[1..]);
      InsertBehind(x, s, rest);
      [s[0]] + rest
  }

  /** A string not above the least of a sorted sequence goes in front. */
  lemma InsertFront(x: string, s: seq<string>)
    requires Sorted(s) && |s| > 0 && StrLe(x, s[0])
    ensures Sorted([x] + s)
  {
    forall j | 0 < j < |s| ensures StrLe(x, s[j]) {
      StrLeTransitive(x, s[0], s[j]);
    }
    forall i, j | 0 <= i < j < |s| + 1 ensures StrLe(([x] + s)[i], ([x] + s)[j]) {
      if i > 0 {
        assert ([x] + s)[i] == s[i - 1];
      }
      assert ([x] + s)[j] == s[j - 1];
    }
  }

  /** A string above the least of a sorted sequence goes in among the rest. */
  lemma InsertBehind(x: string, s: seq<string>, rest: seq<string>)
    requires Sorted(s) && |s| > 0 && !StrLe(x, s[0])
    requires Sorted(rest) && multiset(rest) == multiset(s[1..]) + multiset{x}
    ensures Sorted([s[0]] + rest) && multiset([s[0]] + rest) == multiset(s) + multiset{x}
  {
    StrLeTotal(x, s[0]);
    forall k | 0 <= k < |rest| ensures StrLe(s[0], rest[k]) {
      assert rest[k] in multiset(rest);
      if rest[k] != x {
        var m :| 0 <= m < |s[1..]| && s[1..][m] == rest[k];
        assert s[m + 1] == rest[k];
      }
    }
    forall i, j | 0 <= i < j < |rest| + 1 ensures StrLe(([s[0]] + rest)[i], ([s[0]] + rest)[j]) {
      if i > 0 {
        assert ([s[0]] + rest)[i] == rest[i - 1];
      }
      assert ([s[0]] + rest)[j] == rest[j - 1];
    }
    assert s == [s[0]] + s[1..];
  }

  /** `sorted(paths)`. */
  function Sort(s: seq<string>): (r: seq<string>)
    ensures Sorted(r) && multiset(r) == multiset(s)
  {
    if |s| == 0 then []
    else
      assert s == [s[0]] + s[1..];
      Insert(s[0], Sort(s[1..]))
  }

  lemma SortedTail(s: seq<string>)
    requires Sorted(s) && |s| > 0
    ensures Sorted(s[1..])
  {
    forall x, y | 0 <= x < y < |s| - 1 ensures StrLe(s[1..][x], s[1..][y]) {
      assert s[1..][x] == s[x + 1] && s[1..][y] == s[y + 1];
    }
  }

  /** Two sorted arrangements of the same strings start alike. */
  lemma SortedHeads(a: seq<string>, b: seq<string>)
    requires Sorted(a) && Sorted(b) && multiset(a) == multiset(b) && |a| > 0
    ensures |b| > 0 && a[0] == b[0]
  {
    assert a[0] in multiset(b);
    assert b[0] in multiset(a);
    var i :| 0 <= i < |b| && b[i] == a[0];
    var j :| 0 <= j < |a| && a[j] == b[0];
    StrLeReflexive(a[0]);
    StrLeReflexive(b[0]);
    StrLeAntisymmetric(a[0], b[0]);
  }

  lemma TailMultiset(a: seq<string>, b: seq<string>)
    requires |a| > 0 && |b| > 0 && a[0] == b[0] && multiset(a) == multiset(b)
    ensures multiset(a[1..]) == multiset(b[1..])
  {
    assert a == [a[0]] + a[1..] && b == [b[0]] + b[1..];
    assert multiset(a) == multiset{a[0]} + multiset(a[1..]);
    assert multiset(b) == multiset{b[0]} + multiset(b[1..]);
    assert multiset(a[1..]) == multiset(a) - multiset{a[0]};
    assert multiset(b[1..]) == multiset(b) - multiset{b[0]};
  }

  /** Two sorted arrangements of the same strings are the same sequence, so
      the sorted order does not depend on the order given. */
  lemma {:induction false} SortedUnique(a: seq<string>, b: seq<string>)
    requires Sorted(a) && Sorted(b) && multiset(a) == multiset(b)
    ensures a == b
  {
    if |a| > 0 {
      SortedHeads(a, b);
      TailMultiset(a, b);
      SortedTail(a);
      SortedTail(b);
      SortedUnique(a[1..], b[1..]);
      assert a == [a[0]] + a[1..] && b == [b[0]] + b[1..];
    } else {
      assert |b| == |multiset(b)|;
    }
  }

  lemma SortPermutation(a: seq<string>, b: seq<string>)
    requires multiset(a) == multiset(b)
    ensures Sort(a) == Sort(b)
  {
    SortedUnique(Sort(a), Sort(b));
  }

  // ---------------------------------------------------------------------------
  // The hasher
  // ---------------------------------------------------------------------------

  /** Files are read in chunks of this many bytes. */
  const ChunkSize: nat := 64 * 1024

  /** An MD5 hash object: it holds the bytes fed to it; its digest is the
      parameter `md5` of those bytes. */
  class Md5Hasher {
    var fed: seq<Byte>

    /** `_md5()`: nothing fed yet. */
    constructor ()
      ensures fed == []
    {
      fed := [];
    }

    /** `update(chunk)`. */
    method Update(chunk: seq<Byte>)
      modifies this
      ensures fed == old(fed) + chunk
    {
      fed := fed + chunk;
    }

    /** `digest()`. */
    function Digest(md5: seq<Byte> -> Bytes16): Bytes16
      reads this
    {
      md5(fed)
    }
  }

  /** Raised when a path is not a file. */
  datatype FileError = FileNotFound(path: string)

  /** The contents of the files in the order given, or the first missing
      one. */
  function Contents(paths: seq<string>, fs: map<string, seq<Byte>>): Result<seq<Byte>, FileError>
  {
    if |paths| == 0 then Ok([])
    else if paths[0] !in fs then Err(FileNotFound(paths[0]))
    else
      var rest := Contents(paths[1..], fs);
      if rest.Err? then rest else Ok(fs[paths[0]] + rest.value)
  }

  /** The contents of a concatenation of path lists. */
  lemma {:induction false} ContentsAppend(a: seq<string>, b: seq<string>, fs: map<string, seq<Byte>>)
    ensures Contents(a + b, fs) ==
            if Contents(a, fs).Err? then Contents(a, fs)
            else if Contents(b, fs).Err? then Contents(b, fs)
            else Ok(Contents(a, fs).value + Contents(b, fs).value)
  {
    if |a| == 0 {
      assert a + b == b;
      if Contents(b, fs).Ok? {
        assert [] + Contents(b, fs).value == Contents(b, fs).value;
      }
    } else {
      assert (a + b)[0] == a[0] && (a + b)[1..] == a[1..] + b;
      ContentsAppend(a[1..], b, fs);
      if a[0] in fs && Contents(a[1..], fs).Ok? && Contents(b, fs).Ok? {
        assert fs[a[0]] + (Contents(a[1..], fs).value + Contents(b, fs).value) ==
               (fs[a[0]] + Contents(a[1..], fs).value) + Contents(b, fs).value;
      }
    }
  }

  lemma ContentsOne(p: string, fs: map<string, seq<Byte>>)
    ensures Contents([p], fs) == if p in fs then Ok(fs[p]) else Err(FileNotFound(p))
  {
    assert [p][1..] == [];
    if p in fs {
      assert fs[p] + [] == fs[p];
    }
  }

  /** One more file read after the first `i`. */
  lemma ContentsStep(paths: seq<string>, i: nat, fs: map<string, seq<Byte>>)
    requires i < |paths| && paths[i] in fs && Contents(paths[..i], fs).Ok?
    ensures Contents(paths[..i + 1], fs) == Ok(Contents(paths[..i], fs).value + fs[paths[i]])
  {
    ContentsAppend(paths[..i], [paths[i]], fs);
    ContentsOne(paths[i], fs);
    assert paths[..i + 1] == paths[..i] + [paths[i]];
  }

  /** The first missing file, after `i` that were read, is the one
      reported. */
  lemma ContentsStops(paths: seq<string>, i: nat, fs: map<string, seq<Byte>>)
    requires i < |paths| && paths[i] !in fs && Contents(paths[..i], fs).Ok?
    ensures Contents(paths, fs) == Err(FileNotFound(paths[i]))
  {
    ContentsAppend(paths[..i], [paths[i]], fs);
    ContentsOne(paths[i], fs);
    assert paths[..i + 1] == paths[..i] + [paths[i]];
    ContentsAppend(paths[..i + 1], paths[i + 1..], fs);
    assert paths[..i + 1] + paths[i + 1..] == paths;
  }

  /** The read loop of `_md5_file_hasher`: one file's contents fed to the
      hasher in chunks of 64 KiB, until a read returns nothing. */
  method FeedFile(h: Md5Hasher, data: seq<Byte>)
    modifies h
    ensures h.fed == old(h.fed) + data
  {
    var pos := 0;
    var chunk := Chunk(data, pos);
    while chunk != []
      invariant 0 <= pos <= |data|
      invariant chunk == Chunk(data, pos)
      invariant h.fed == old(h.fed) + data[..pos]
      decreases |data| - pos
    {
      h.Update(chunk);
      assert data[..pos + |chunk|] == data[..pos] + chunk;
      pos := pos + |chunk|;
      chunk := Chunk(data, pos);
    }
    assert data[..pos] == data;
  }

  /** `f.read(ChunkSize)` at offset `pos`: the next bytes, at most
      ChunkSize of them, and none only at the end. */
  function Chunk(data: seq<Byte>, pos: nat): (r: seq<Byte>)
    requires pos <= |data|
    ensures pos + |r| <= |data| && r == data[pos..pos + |r|]
    ensures |r| == 0 <==> pos == |data|
  {
    data[pos..if pos + ChunkSize <= |data| then pos + ChunkSize else |data|]
  }

  /** `_md5_file_hasher(*paths)`: a hasher fed with each file's contents, in
      chunks of 64 KiB, in sorted path order; a missing file raises. */
  method Md5FileHasher(paths: seq<string>, fs: map<string, seq<Byte>>) returns (r: Result<Md5Hasher, FileError>)
    ensures r.Ok? ==> fresh(r.value) && Contents(Sort(paths), fs) == Ok(r.value.fed)
    ensures r.Err? ==> Contents(Sort(paths), fs) == Err(r.error)
  {
    var h := new Md5Hasher();
    var sorted := Sort(paths);
    var i := 0;
    while i < |sorted|
      invariant 0 <= i <= |sorted|
      invariant Contents(sorted[..i], fs) == Ok(h.fed)
    {
      var path := sorted[i];
      if path !in fs {
        ContentsStops(sorted, i, fs);
        return Err(FileNotFound(path));
      }
      ContentsStep(sorted, i, fs);
      FeedFile(h, fs[path]);
      i := i + 1;
    }
    assert sorted[..i] == sorted;
    return Ok(h);
  }

  /** What `hash_files` returns: the digest of the sorted files' contents in
      the class's encoding, or the missing file. */
  function HashFilesSpec(kind: Kind, paths: seq<string>, fs: map<string, seq<Byte>>,
                         md5: seq<Byte> -> Bytes16): Result<Digest, FileError>
    requires IsMD5Kind(kind)
  {
    var data := Contents(Sort(paths), fs);
    if data.Err? then Err(data.error)
    else
      FromBytesRoundTrip(kind, md5(data.value));
      Ok(FromBytes(kind, md5(data.value)).value)
  }

  /** `cls.hash_bytes(b)`: the digest of `b` in the class's encoding. */
  function HashBytes(kind: Kind, b: seq<Byte>, md5: seq<Byte> -> Bytes16): (d: Digest)
    requires IsMD5Kind(kind)
    ensures KindOf(d) == kind && Validate(d) == Ok(d) && DigestBytes(d) == Ok(md5(b))
  {
    FromBytesRoundTrip(kind, md5(b));
    FromBytes(kind, md5(b)).value
  }

  /** `cls.hash_files(*paths)`. */
  method HashFiles(kind: Kind, paths: seq<string>, fs: map<string, seq<Byte>>,
                   md5: seq<Byte> -> Bytes16) returns (r: Result<Digest, FileError>)
    requires IsMD5Kind(kind)
    ensures r == HashFilesSpec(kind, paths, fs, md5)
  {
    var hasher := Md5FileHasher(paths, fs);
    if hasher.Err? {
      return Err(hasher.error);
    }
    var digest := hasher.value.Digest(md5);
    FromBytesRoundTrip(kind, digest);
    return Ok(FromBytes(kind, digest).value);
  }

  // ---------------------------------------------------------------------------
  // Properties of hash_files
  // ---------------------------------------------------------------------------

  /** The digest does not depend on the order the paths are given in. */
  lemma HashFilesOrderIndependent(kind: Kind, p: seq<string>, q: seq<string>,
                                  fs: map<string, seq<Byte>>, md5: seq<Byte> -> Bytes16)
    requires IsMD5Kind(kind) && multiset(p) == multiset(q)
    ensures HashFilesSpec(kind, p, fs, md5) == HashFilesSpec(kind, q, fs, md5)
  {
    SortPermutation(p, q);
  }

  /** With no paths, the digest is that of the empty input. */
  lemma HashFilesNone(kind: Kind, fs: map<string, seq<Byte>>, md5: seq<Byte> -> Bytes16)
    requires IsMD5Kind(kind)
    ensures HashFilesSpec(kind, [], fs, md5) == Ok(HashBytes(kind, [], md5))
  {
  }

  /** One file hashes like its contents. */
  lemma HashFilesSingle(kind: Kind, p: string, fs: map<string, seq<Byte>>, md5: seq<Byte> -> Bytes16)
    requires IsMD5Kind(kind) && p in fs
    ensures HashFilesSpec(kind, [p], fs, md5) == Ok(HashBytes(kind, fs[p], md5))
  {
    assert Sort([p]) == [p];
    ContentsOne(p, fs);
  }

  /** The call is refused exactly when some path is missing. */
  lemma {:induction false} ContentsMissing(paths: seq<string>, fs: map<string, seq<Byte>>)
    ensures Contents(paths, fs).Err? <==> exists i :: 0 <= i < |paths| && paths[i] !in fs
    ensures Contents(paths, fs).Err? ==> Contents(paths, fs).error.path !in fs
  {
    if |paths| > 0 {
      ContentsMissing(paths[1..], fs);
      if Contents(paths[1..], fs).Err? {
        var i :| 0 <= i < |paths[1..]| && paths[1..][i] !in fs;
        assert paths[i + 1] !in fs;
      }
      if exists i :: 0 <= i < |paths| && paths[i] !in fs {
        var i :| 0 <= i < |paths| && paths[i] !in fs;
        if i > 0 {
          assert paths[1..][i - 1] !in fs;
        }
      }
    }
  }

  lemma HashFilesMissing(kind: Kind, paths: seq<string>, fs: map<string, seq<Byte>>,
                         md5: seq<Byte> -> Bytes16)
    requires IsMD5Kind(kind)
    ensures HashFilesSpec(kind, paths, fs, md5).Err? <==> exists p :: p in paths && p !in fs
    ensures HashFilesSpec(kind, paths, fs, md5).Err? ==>
              var p := HashFilesSpec(kind, paths, fs, md5).error.path; p in paths && p !in fs
  {
    var sorted := Sort(paths);
    ContentsMissing(sorted, fs);
    assert forall p :: p in paths <==> p in multiset(sorted);
    if Contents(sorted, fs).Err? {
      assert Contents(sorted, fs).error.path in sorted by {
        ContentsNames(sorted, fs);
      }
    }
  }

  lemma {:induction false} ContentsNames(paths: seq<string>, fs: map<string, seq<Byte>>)
    requires Contents(paths, fs).Err?
    ensures Contents(paths, fs).error.path in paths
  {
    if paths[0] in fs {
      ContentsNames(paths[1..], fs);
    }
  }

  lemma SortThree()
    ensures Sort(["c.bin", "a.bin", "b.txt"]) == ["a.bin", "b.txt", "c.bin"]
  {
    var sorted := ["a.bin", "b.txt", "c.bin"];
    assert StrLe("a.bin", "b.txt") && StrLe("a.bin", "c.bin") && StrLe("b.txt", "c.bin");
    assert Sorted(sorted);
    assert multiset(sorted) == multiset(["c.bin", "a.bin", "b.txt"]);
    SortedUnique(Sort(["c.bin", "a.bin", "b.txt"]), sorted);
  }

  lemma ContentsThree(a: string, b: string, c: string, fs: map<string, seq<Byte>>)
    requires a in fs && b in fs && c in fs
    ensures Contents([a, b, c], fs) == Ok(fs[a] + fs[b] + fs[c])
  {
    ContentsAppend([a], [b, c], fs);
    ContentsAppend([b], [c], fs);
    assert [a] + [b, c] == [a, b, c];
    assert [b] + [c] == [b, c];
    ContentsOne(a, fs);
    ContentsOne(b, fs);
    ContentsOne(c, fs);
    assert fs[a] + (fs[b] + fs[c]) == fs[a] + fs[b] + fs[c];
  }

  /** Three files given out of order hash like their contents joined in
      sorted path order. */
  lemma HashFilesThree(kind: Kind, fs: map<string, seq<Byte>>, md5: seq<Byte> -> Bytes16)
    requires IsMD5Kind(kind) && "a.bin" in fs && "b.txt" in fs && "c.bin" in fs
    ensures HashFilesSpec(kind, ["c.bin", "a.bin", "b.txt"], fs, md5) ==
            Ok(HashBytes(kind, fs["a.bin"] + fs["b.txt"] + fs["c.bin"], md5))
  {
    SortThree();
    ContentsThree("a.bin", "b.txt", "c.bin", fs);
  }
}
