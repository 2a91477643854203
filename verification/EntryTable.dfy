/**
 The partition entry array as the flat buffer that gpt-utils keeps it in, and the lookup and
 swap loops that walk it by byte offset, proved against the entry-level definitions.
 */
module EntryTable {
  import opened Bytes
  import opened BootChain

  /** The buffer cut into entries of `size` bytes. */
  function Chunks(b: ByteString, size: nat): (es: seq<Entry>)
    requires size > 0
    ensures Uniform(es, size)
    decreases |b|
  {
    if |b| < size then [] else [b[..size]] + Chunks(b[size..], size)
  }

  function Flatten(es: seq<Entry>): (b: ByteString) {
    if es == [] then [] else es[0] + Flatten(es[1..])
  }

  lemma {:induction false} FlattenOfChunks(b: ByteString, size: nat, n: nat)
    requires size > 0 && |b| == Times(n, size)
    ensures |Chunks(b, size)| == n && Flatten(Chunks(b, size)) == b
    decreases n
  {
    if n > 0 {
      assert |b| == Times(n - 1, size) + size;
      FlattenOfChunks(b[size..], size, n - 1);
      assert Chunks(b, size)[1..] == Chunks(b[size..], size);
    }
  }

  lemma {:induction false} ChunksOfFlatten(es: seq<Entry>, size: nat)
    requires size > 0 && Uniform(es, size)
    ensures |Flatten(es)| == Times(|es|, size) && Chunks(Flatten(es), size) == es
    decreases |es|
  {
    if es != [] {
      ChunksOfFlatten(es[1..], size);
      assert Times(|es|, size) == Times(|es| - 1, size) + size;
      assert Flatten(es)[size..] == Flatten(es[1..]);
    }
  }

  lemma {:induction false} ChunkAt(b: ByteString, size: nat, n: nat, k: nat)
    requires size > 0 && |b| == Times(n, size) && k < n
    ensures 0 <= Times(k, size) <= Times(k, size) + size <= |b|
    ensures |Chunks(b, size)| == n && Chunks(b, size)[k] == b[Times(k, size)..Times(k, size) + size]
    decreases n
  {
    assert |b| == Times(n - 1, size) + size;
    FlattenOfChunks(b, size, n);
    if k > 0 {
      ChunkAt(b[size..], size, n - 1, k - 1);
      assert Times(k - 1, size) + size == Times(k, size);
      assert Chunks(b, size)[k] == Chunks(b[size..], size)[k - 1];
    }
  }

  /** The boot-chain swap of a whole buffer. */
  function SwapTable(b: ByteString, size: nat, names: seq<string>): (r: ByteString)
    requires size >= PTN_ENTRY_SIZE
  {
    Flatten(SwapAll(Chunks(b, size), names))
  }

  lemma SwapTableShape(b: ByteString, size: nat, n: nat, names: seq<string>)
    requires size >= PTN_ENTRY_SIZE && |b| == Times(n, size)
    ensures |SwapTable(b, size, names)| == |b|
    ensures Chunks(SwapTable(b, size, names), size) == SwapAll(Chunks(b, size), names)
  {
    var es := Chunks(b, size);
    FlattenOfChunks(b, size, n);
    SwapAllUniform(es, names, size);
    ChunksOfFlatten(SwapAll(es, names), size);
  }

  /** On the raw buffer too, swapping twice restores every byte. */
  lemma SwapTableInvolution(b: ByteString, size: nat, n: nat, names: seq<string>)
    requires size >= PTN_ENTRY_SIZE && |b| == Times(n, size) && Separate(names)
    ensures SwapTable(SwapTable(b, size, names), size, names) == b
  {
    SwapTableShape(b, size, n, names);
    SwapAllInvolution(Chunks(b, size), names);
    FlattenOfChunks(b, size, n);
  }

  lemma SpliceChunkAt(b: ByteString, size: nat, n: nat, k: nat, x: ByteString, m: nat)
    requires size > 0 && |b| == Times(n, size) && k < n && m < n && |x| <= size
    requires Times(k, size) + size <= |b|
    ensures |Chunks(b, size)| == |Chunks(Splice(b, Times(k, size), x), size)| == n
    ensures Chunks(Splice(b, Times(k, size), x), size)[m]
         == if m == k then x + Chunks(b, size)[k][|x|..] else Chunks(b, size)[m]
  {
    hide Chunks, Splice, Times;
    ChunkAt(b, size, n, m);
    ChunkAt(Splice(b, Times(k, size), x), size, n, m);
    TimesApart(k, m, size);
    EntryAfterSplice(b, Times(k, size), x, Times(m, size), size);
  }

  lemma TimesApart(k: nat, m: nat, size: nat)
    ensures m == k || Times(m, size) + size <= Times(k, size) || Times(k, size) + size <= Times(m, size)
    ensures size > 0 && m != k ==> Times(k, size) != Times(m, size)
  {
    if m < k {
      TimesStep(m, k, size);
    } else if k < m {
      TimesStep(k, m, size);
    }
  }

  lemma EntryAfterSplice(b: ByteString, o: nat, x: ByteString, at: nat, size: nat)
    requires |x| <= size && o + size <= |b| && at + size <= |b|
    requires at == o || at + size <= o || o + size <= at
    ensures Splice(b, o, x)[at..at + size]
         == if at == o then x + b[o..o + size][|x|..] else b[at..at + size]
  {
    if at == o {
      SpliceStart(b, o, x, size);
    } else {
      SpliceMiss(b, o, x, at, at + size);
    }
  }

  /** Overwriting the start of entry k changes entry k and no other. */
  lemma SpliceChunk(b: ByteString, size: nat, n: nat, k: nat, x: ByteString)
    requires size > 0 && |b| == Times(n, size) && k < n && |x| <= size
    requires Times(k, size) + size <= |b|
    ensures |Chunks(b, size)| == |Chunks(Splice(b, Times(k, size), x), size)| == n
    ensures Chunks(Splice(b, Times(k, size), x), size)
         == Chunks(b, size)[k := x + Chunks(b, size)[k][|x|..]]
  {
    SpliceChunkAt(b, size, n, k, x, k);
    forall m | 0 <= m < n
      ensures Chunks(Splice(b, Times(k, size), x), size)[m]
           == if m == k then x + Chunks(b, size)[k][|x|..] else Chunks(b, size)[m]
    {
      SpliceChunkAt(b, size, n, k, x, m);
    }
  }

  /** The offset of an entry lies inside the table exactly when its index does. */
  lemma OffsetInside(k: nat, n: nat, size: nat)
    requires size >= PTN_ENTRY_SIZE
    ensures Times(k, size) + PARTITION_NAME_OFFSET < Times(n, size) <==> k < n
  {
    if k < n {
      TimesStep(k, n, size);
    } else if n < k {
      TimesStep(n, k, size);
    }
  }

  /** The name buffer of gpt_pentry_seek: the even bytes of the name field, then NULs. */
  method DecodeName(buf: array<byte>, off: nat) returns (name8: array<char>)
    requires off + PTN_ENTRY_SIZE <= buf.Length
    ensures fresh(name8) && name8[..] == Name8(buf[off..off + PTN_ENTRY_SIZE])
  {
    name8 := new char[MAX_GPT_NAME_SIZE](_ => '\0');
    var i := 0;
    while i < MAX_GPT_NAME_SIZE / 2
      invariant 0 <= i <= MAX_GPT_NAME_SIZE / 2
      invariant forall m :: 0 <= m < i ==> name8[m] == buf[off + PARTITION_NAME_OFFSET + 2 * m] as char
      invariant forall m :: i <= m < MAX_GPT_NAME_SIZE ==> name8[m] == '\0'
    {
      name8[i] := buf[off + PARTITION_NAME_OFFSET + 2 * i] as char;
      i := i + 1;
    }
    name8[i] := '\0';
  }

  /** The test of gpt_pentry_seek on the entry at an offset. */
  method TestEntry(buf: array<byte>, off: nat, size: nat, name: string, ghost k: nat, ghost n: nat)
    returns (ok: bool)
    requires size >= PTN_ENTRY_SIZE && buf.Length == Times(n, size) && off == Times(k, size) && k < n
    ensures |Chunks(buf[..], size)| == n && ok == Matches(Chunks(buf[..], size)[k], name)
  {
    ChunkAt(buf[..], size, n, k);
    var name8 := DecodeName(buf, off);
    NameByHead(buf[..][off..off + size], buf[off..off + PTN_ENTRY_SIZE]);
    ok := NameTest(name8[..], name);
  }

  /** gpt_pentry_seek: the offset of the first match at or after entry `from`, if there is one. */
  method PentrySeek(name: string, buf: array<byte>, start: nat, size: nat, ghost from: nat, ghost n: nat)
    returns (found: bool, off: nat)
    requires size >= PTN_ENTRY_SIZE && buf.Length == Times(n, size) && start == Times(from, size) && from <= n
    ensures |Chunks(buf[..], size)| == n
    ensures var k := Seek(Chunks(buf[..], size), from, name);
      (found <==> k < n) && (found ==> off == Times(k, size))
  {
    hide Chunks, Matches;
    ghost var es := Chunks(buf[..], size);
    FlattenOfChunks(buf[..], size, n);
    ghost var k := from;
    off := start;
    OffsetInside(k, n, size);
    while off + PARTITION_NAME_OFFSET < buf.Length
      invariant off == Times(k, size) && from <= k <= n
      invariant off + PARTITION_NAME_OFFSET < buf.Length <==> k < n
      invariant Seek(es, from, name) == Seek(es, k, name)
      decreases n - k
    {
      found := TestEntry(buf, off, size, name, k, n);
      if found {
        return;
      }
      off := off + size;
      k := k + 1;
      OffsetInside(k, n, size);
    }
    found := false;
  }

  lemma ExchangeChunks(b: ByteString, size: nat, n: nat, i: nat, j: nat, off: nat, bak: nat)
    requires size >= PTN_ENTRY_SIZE && |b| == Times(n, size) && i < j < n
    requires off == Times(i, size) && bak == Times(j, size)
    ensures off + PTN_ENTRY_SIZE <= bak && bak + PTN_ENTRY_SIZE <= |b| && |Chunks(b, size)| == n
    ensures Chunks(ExchangedBytes(b, off, bak), size) == Exchange(Chunks(b, size), i, j)
  {
    TimesStep(i, j, size);
    TimesStep(j, n, size);
    ChunkAt(b, size, n, i);
    ChunkAt(b, size, n, j);
    var es := Chunks(b, size);
    var hi, hj := b[off..off + PTN_ENTRY_SIZE], b[bak..bak + PTN_ENTRY_SIZE];
    assert hi == Head(es[i]) && hj == Head(es[j]);
    SpliceChunk(b, size, n, i, hj);
    SpliceChunk(Splice(b, off, hj), size, n, j, hi);
  }

  function ExchangedBytes(b: ByteString, off: nat, bak: nat): (r: ByteString)
    requires off + PTN_ENTRY_SIZE <= bak && bak + PTN_ENTRY_SIZE <= |b|
  {
    Splice(Splice(b, off, b[bak..bak + PTN_ENTRY_SIZE]), bak, b[off..off + PTN_ENTRY_SIZE])
  }

  /** The three memcpys of the swap. */
  method ExchangeEntries(buf: array<byte>, off: nat, bak: nat)
    requires off + PTN_ENTRY_SIZE <= bak && bak + PTN_ENTRY_SIZE <= buf.Length
    modifies buf
    ensures buf[..] == ExchangedBytes(old(buf[..]), off, bak)
  {
    hide Splice;
    ghost var b := buf[..];
    var swap := new byte[PTN_ENTRY_SIZE];
    SpliceWhole(swap[..], b[off..off + PTN_ENTRY_SIZE]);
    MemCpy(swap, 0, buf, off, PTN_ENTRY_SIZE);
    assert swap[0..PTN_ENTRY_SIZE] == swap[..] == b[off..off + PTN_ENTRY_SIZE];
    MemCpy(buf, off, buf, bak, PTN_ENTRY_SIZE);
    assert buf[..] == Splice(b, off, b[bak..bak + PTN_ENTRY_SIZE]);
    MemCpy(buf, bak, swap, 0, PTN_ENTRY_SIZE);
  }

  /** One turn of the swap loop. */
  method SwapName(buf: array<byte>, size: nat, name: string, ghost n: nat) returns (swapped: bool)
    requires size >= PTN_ENTRY_SIZE && buf.Length == Times(n, size)
    modifies buf
    ensures Chunks(buf[..], size) == SwapOne(Chunks(old(buf[..]), size), name)
    ensures swapped <==> HasPair(Chunks(old(buf[..]), size), name)
  {
    ghost var b := buf[..];
    ghost var es := Chunks(b, size);
    swapped := false;
    var found, off := PentrySeek(name, buf, 0, size, 0, n);
    if found {
      ghost var f := First(es, name);
      var bakFound, bak := PentrySeek(name, buf, off + size, size, f + 1, n);
      if bakFound {
        ExchangeChunks(b, size, n, f, Second(es, name), off, bak);
        ExchangeEntries(buf, off, bak);
        swapped := true;
      }
    }
  }

  /** gpt_boot_chain_swap over a list of names, in place: true when no backup partition was found. */
  method BootChainSwap(buf: array<byte>, size: nat, names: seq<string>, ufs: bool, ghost n: nat)
    returns (backupNotFound: bool)
    requires size >= PTN_ENTRY_SIZE && buf.Length == Times(n, size)
    modifies buf
    ensures buf[..] == SwapTable(old(buf[..]), size, Kept(names, ufs))
    ensures backupNotFound <==> !Found(Chunks(old(buf[..]), size), Kept(names, ufs))
  {
    ghost var es := Chunks(buf[..], size);
    backupNotFound := true;
    var i := 0;
    assert names[0..] == names;
    while i < |names|
      invariant 0 <= i <= |names|
      invariant Pending(es, Kept(names, ufs), Kept(names[i..], ufs), Chunks(buf[..], size), !backupNotFound)
    {
      assert names[i..][0] == names[i] && names[i..][1..] == names[i + 1..];
      if !(ufs && SkippedOnUfs(names[i])) {
        ghost var rest := Kept(names[i + 1..], ufs);
        PendingStep(es, Kept(names, ufs), names[i], rest, Chunks(buf[..], size), !backupNotFound);
        var swapped := SwapName(buf, size, names[i], n);
        if swapped {
          backupNotFound := false;
        }
      }
      i := i + 1;
    }
    FlattenOfChunks(buf[..], size, n);
  }

  /** A table part of the way through the swap, with the names of `rest` still to come. */
  ghost predicate Pending(es: seq<Entry>, list: seq<string>, rest: seq<string>, cur: seq<Entry>, found: bool)
    requires Table(es)
  {
    && Table(cur)
    && SwapAll(cur, rest) == SwapAll(es, list)
    && (found || Found(cur, rest) <==> Found(es, list))
  }

  lemma PendingStep(es: seq<Entry>, list: seq<string>, name: string, rest: seq<string>, cur: seq<Entry>, found: bool)
    requires Table(es) && Pending(es, list, [name] + rest, cur, found)
    ensures Pending(es, list, rest, SwapOne(cur, name), found || HasPair(cur, name))
  {
    assert ([name] + rest)[1..] == rest;
  }
}
