/**
 The partition entry array (section 5.3.3 of the UEFI Specification) and the boot-chain swap
 of gpt-utils: every listed partition trades places with its "bak" twin.

 Lookup and swap are stated on the sequence of entries; the methods at the end run the source's
 loops and memcpys over the raw buffer and are proved against them.
 */
module BootChain {
  import opened Bytes

  type Entry = ByteString

  const PTN_ENTRY_SIZE := 128
  const PARTITION_NAME_OFFSET := 56
  const MAX_GPT_NAME_SIZE := 72
  const BAK := "bak"

  const SWAP_LIST: seq<string> := [
    "xbl", "xbl_config", "multiimgoem", "multiimgqti", "sbl1", "rpm", "tz", "aboot", "abl",
    "hyp", "lksecapp", "keymaster", "cmnlib", "cmnlib32", "cmnlib64", "pmic", "apdp", "devcfg",
    "hosd", "keystore", "msadp", "mdtp", "mdtpsecapp", "dsp", "aop", "qupfw", "vbmeta", "dtbo",
    "imagefv", "ImageFv", "vm-bootsys", "shrm", "cpucp"]

  //// Names

  /** The source's name8 buffer: the low byte of each UTF-16 unit, then NULs. */
  function Name8(e: Entry): (s: string)
    requires |e| >= PTN_ENTRY_SIZE
    ensures |s| == MAX_GPT_NAME_SIZE
  {
    seq(MAX_GPT_NAME_SIZE, i requires 0 <= i < MAX_GPT_NAME_SIZE =>
      if i < MAX_GPT_NAME_SIZE / 2 then e[PARTITION_NAME_OFFSET + 2 * i] as char else '\0')
  }

  /** The C string that starts a character buffer. */
  function CString(s: string): (r: string)
    ensures |r| <= |s| && r == s[..|r|]
    ensures forall i :: 0 <= i < |r| ==> s[i] != '\0'
    ensures |r| < |s| ==> s[|r|] == '\0'
  {
    if s == [] || s[0] == '\0' then [] else [s[0]] + CString(s[1..])
  }

  /** The test of gpt_pentry_seek on a decoded name, with strncmp and strcmp spelled out. */
  predicate NameTest(n: string, name: string)
    requires |n| == MAX_GPT_NAME_SIZE
  {
    && |name| <= MAX_GPT_NAME_SIZE / 2
    && n[..|name|] == name
    && (n[|name|] == '\0' || n[|name|..|name| + 4] == BAK + "\0")
  }

  predicate Matches(e: Entry, name: string)
    requires |e| >= PTN_ENTRY_SIZE
  {
    NameTest(Name8(e), name)
  }

  predicate IsTwin(decoded: string, name: string) {
    decoded == name || decoded == name + BAK
  }

  lemma MatchIsTwin(e: Entry, name: string)
    requires |e| >= PTN_ENTRY_SIZE && '\0' !in name && Matches(e, name)
    ensures IsTwin(CString(Name8(e)), name)
  {
    var n, d := Name8(e), CString(Name8(e));
    assert forall i :: 0 <= i < |name| ==> n[i] == n[..|name|][i] != '\0';
    if n[|name|] == '\0' {
      assert |d| == |name|;
    } else {
      var tail := n[|name|..|name| + 4];
      assert n[|name|] == tail[0] && n[|name| + 1] == tail[1] && n[|name| + 2] == tail[2] && n[|name| + 3] == tail[3];
      assert |d| == |name| + 3;
      assert d == name + BAK;
    }
  }

  lemma TwinMatches(e: Entry, name: string)
    requires |e| >= PTN_ENTRY_SIZE && '\0' !in name && IsTwin(CString(Name8(e)), name)
    ensures Matches(e, name)
  {
    var n, d := Name8(e), CString(Name8(e));
    assert n[36] == '\0';
    assert n[..|name|] == d[..|name|] == name;
    if d == name + BAK {
      assert n[|name|..|name| + 4] == d[|name|..] + ['\0'];
    }
  }

  /** An entry matches exactly when its decoded name is the name or its backup twin. */
  lemma MatchesIffTwin(e: Entry, name: string)
    requires |e| >= PTN_ENTRY_SIZE && '\0' !in name
    ensures Matches(e, name) <==> IsTwin(CString(Name8(e)), name)
  {
    if Matches(e, name) {
      MatchIsTwin(e, name);
    } else if IsTwin(CString(Name8(e)), name) {
      TwinMatches(e, name);
    }
  }

  /** No entry can match two different names of the list. */
  predicate Separate(names: seq<string>) {
    && (forall i :: 0 <= i < |names| ==> '\0' !in names[i])
    && forall i, j :: 0 <= i < j < |names| ==> Apart(names[i], names[j])
  }

  predicate Apart(a: string, b: string) {
    a != b && a != b + BAK && b != a + BAK
  }

  lemma ApartNeverBoth(e: Entry, a: string, b: string)
    requires |e| >= PTN_ENTRY_SIZE && '\0' !in a && '\0' !in b && Apart(a, b)
    ensures !(Matches(e, a) && Matches(e, b))
  {
    MatchesIffTwin(e, a);
    MatchesIffTwin(e, b);
    if a + BAK == b + BAK {
      SuffixCancels(a, b);
    }
  }

  lemma SuffixCancels(a: string, b: string)
    requires a + BAK == b + BAK
    ensures a == b
  {
    assert |a| == |b|;
    assert a == (a + BAK)[..|a|] && b == (b + BAK)[..|b|];
  }

  //// Lookup

  predicate Table(es: seq<Entry>) {
    forall k :: 0 <= k < |es| ==> |es[k]| >= PTN_ENTRY_SIZE
  }

  /** gpt_pentry_seek from entry `from`: the index of the first match, or |es| for NULL. */
  function Seek(es: seq<Entry>, from: nat, name: string): (k: nat)
    requires Table(es) && from <= |es|
    ensures from <= k <= |es|
    ensures forall i :: from <= i < k ==> !Matches(es[i], name)
    ensures k < |es| ==> Matches(es[k], name)
    decreases |es| - from
  {
    if from == |es| || Matches(es[from], name) then from else Seek(es, from + 1, name)
  }

  function First(es: seq<Entry>, name: string): (k: nat)
    requires Table(es)
  {
    Seek(es, 0, name)
  }

  function Second(es: seq<Entry>, name: string): (k: nat)
    requires Table(es) && First(es, name) < |es|
  {
    Seek(es, First(es, name) + 1, name)
  }

  /** A partition and a twin of it are both present. */
  predicate HasPair(es: seq<Entry>, name: string)
    requires Table(es)
  {
    First(es, name) < |es| && Second(es, name) < |es|
  }

  //// Swap

  /** Entries i and j trade their first PTN_ENTRY_SIZE bytes. */
  function Exchange(es: seq<Entry>, i: nat, j: nat): (r: seq<Entry>)
    requires Table(es) && i < j < |es|
    ensures Table(r) && |r| == |es|
  {
    es[i := Head(es[j]) + es[i][PTN_ENTRY_SIZE..]][j := Head(es[i]) + es[j][PTN_ENTRY_SIZE..]]
  }

  function Head(e: Entry): (h: Entry)
    requires |e| >= PTN_ENTRY_SIZE
  {
    e[..PTN_ENTRY_SIZE]
  }

  function SwapOne(es: seq<Entry>, name: string): (r: seq<Entry>)
    requires Table(es)
    ensures Table(r) && |r| == |es|
  {
    if HasPair(es, name) then Exchange(es, First(es, name), Second(es, name)) else es
  }

  function SwapAll(es: seq<Entry>, names: seq<string>): (r: seq<Entry>)
    requires Table(es)
    ensures Table(r) && |r| == |es|
    decreases |names|
  {
    if names == [] then es else SwapAll(SwapOne(es, names[0]), names[1..])
  }

  /** The source's !backup_not_found, collected along the swaps. */
  predicate Found(es: seq<Entry>, names: seq<string>)
    requires Table(es)
    decreases |names|
  {
    names != [] && (HasPair(es, names[0]) || Found(SwapOne(es, names[0]), names[1..]))
  }

  /** The name lies in the first 128 bytes, so matching depends on nothing else. */
  lemma NameByHead(a: Entry, b: Entry)
    requires |a| >= PTN_ENTRY_SIZE && |b| >= PTN_ENTRY_SIZE && Head(a) == Head(b)
    ensures Name8(a) == Name8(b)
  {
    forall i | 0 <= i < 36 ensures a[PARTITION_NAME_OFFSET + 2 * i] == b[PARTITION_NAME_OFFSET + 2 * i] {
      assert Head(a)[PARTITION_NAME_OFFSET + 2 * i] == Head(b)[PARTITION_NAME_OFFSET + 2 * i];
    }
    assert Name8(a) == Name8(b);
  }

  predicate SameMatches(a: seq<Entry>, b: seq<Entry>, name: string)
    requires Table(a) && Table(b)
  {
    |a| == |b| && forall k :: 0 <= k < |a| ==> Matches(a[k], name) == Matches(b[k], name)
  }

  lemma {:induction false} SeekStable(a: seq<Entry>, b: seq<Entry>, from: nat, name: string)
    requires Table(a) && Table(b) && SameMatches(a, b, name) && from <= |a|
    ensures Seek(a, from, name) == Seek(b, from, name)
    decreases |a| - from
  {
    if from < |a| {
      SeekStable(a, b, from + 1, name);
    }
  }

  lemma PairStable(a: seq<Entry>, b: seq<Entry>, name: string)
    requires Table(a) && Table(b) && SameMatches(a, b, name)
    ensures First(a, name) == First(b, name)
    ensures HasPair(a, name) == HasPair(b, name)
    ensures HasPair(a, name) ==> Second(a, name) == Second(b, name)
  {
    SeekStable(a, b, 0, name);
    if First(a, name) < |a| {
      SeekStable(a, b, First(a, name) + 1, name);
    }
  }

  /** A swap under one name moves no match of that name or of a name apart from it. */
  lemma SwapKeepsMatches(es: seq<Entry>, name: string, other: string)
    requires Table(es) && '\0' !in name && '\0' !in other
    requires name == other || Apart(name, other)
    ensures SameMatches(SwapOne(es, name), es, other)
  {
    if HasPair(es, name) {
      var i, j, r := First(es, name), Second(es, name), SwapOne(es, name);
      assert Head(r[i]) == Head(es[j]) && Head(r[j]) == Head(es[i]);
      NameByHead(r[i], es[j]);
      NameByHead(r[j], es[i]);
      if name != other {
        ApartNeverBoth(es[i], name, other);
        ApartNeverBoth(es[j], name, other);
      }
    }
  }

  lemma SwapOneInvolution(es: seq<Entry>, name: string)
    requires Table(es) && '\0' !in name
    ensures SwapOne(SwapOne(es, name), name) == es
  {
    SwapKeepsMatches(es, name, name);
    PairStable(SwapOne(es, name), es, name);
    if HasPair(es, name) {
      ExchangeTwice(es, First(es, name), Second(es, name));
    }
  }

  lemma ExchangeTwice(es: seq<Entry>, i: nat, j: nat)
    requires Table(es) && i < j < |es|
    ensures Exchange(Exchange(es, i, j), i, j) == es
  {
    var r := Exchange(es, i, j);
    assert Head(r[i]) == Head(es[j]) && r[i][PTN_ENTRY_SIZE..] == es[i][PTN_ENTRY_SIZE..];
    assert Head(r[j]) == Head(es[i]) && r[j][PTN_ENTRY_SIZE..] == es[j][PTN_ENTRY_SIZE..];
    assert Exchange(r, i, j)[i] == Head(es[i]) + es[i][PTN_ENTRY_SIZE..] == es[i];
    assert Exchange(r, i, j)[j] == Head(es[j]) + es[j][PTN_ENTRY_SIZE..] == es[j];
  }

  lemma SwapsCommute(es: seq<Entry>, a: string, b: string)
    requires Table(es) && '\0' !in a && '\0' !in b && Apart(a, b)
    ensures SwapOne(SwapOne(es, a), b) == SwapOne(SwapOne(es, b), a)
  {
    hide Matches, SameMatches, Exchange;
    SwapKeepsMatches(es, a, b);
    SwapKeepsMatches(es, b, a);
    PairStable(SwapOne(es, a), es, b);
    PairStable(SwapOne(es, b), es, a);
    if HasPair(es, a) && HasPair(es, b) {
      SeekMatches(es, a);
      SeekMatches(es, b);
      ApartNeverBoth(es[First(es, a)], a, b);
      ApartNeverBoth(es[Second(es, a)], a, b);
      ExchangesCommute(es, First(es, a), Second(es, a), First(es, b), Second(es, b));
    }
  }

  lemma ExchangesCommute(es: seq<Entry>, i: nat, j: nat, k: nat, m: nat)
    requires Table(es) && i < j < |es| && k < m < |es| && i != k && i != m && j != k && j != m
    ensures Exchange(Exchange(es, i, j), k, m) == Exchange(Exchange(es, k, m), i, j)
  {
    hide Head;
  }

  lemma SeparateTail(names: seq<string>)
    requires Separate(names) && names != []
    ensures Separate(names[1..])
    ensures forall i :: 0 <= i < |names[1..]| ==> Apart(names[0], names[1..][i])
  {
  }

  /** A swap may be moved past a whole list of names apart from it. */
  lemma {:induction false} SwapPastAll(es: seq<Entry>, name: string, names: seq<string>)
    requires Table(es) && '\0' !in name && Separate(names)
    requires forall i :: 0 <= i < |names| ==> Apart(name, names[i])
    ensures SwapAll(SwapOne(es, name), names) == SwapOne(SwapAll(es, names), name)
    decreases |names|
  {
    if names != [] {
      SwapsCommute(es, name, names[0]);
      SwapPastAll(SwapOne(es, names[0]), name, names[1..]);
    }
  }

  /** The boot-chain swap undoes itself, on every table. */
  lemma {:induction false} SwapAllInvolution(es: seq<Entry>, names: seq<string>)
    requires Table(es) && Separate(names)
    ensures SwapAll(SwapAll(es, names), names) == es
    decreases |names|
  {
    if names != [] {
      var x, rest := names[0], names[1..];
      SeparateTail(names);
      var once := SwapAll(SwapOne(es, x), rest);
      SwapPastAll(es, x, rest);
      SwapOneInvolution(SwapAll(es, rest), x);
      assert SwapOne(once, x) == SwapAll(es, rest);
      SwapAllInvolution(es, rest);
    }
  }

  predicate MatchesNone(e: Entry, names: seq<string>)
    requires |e| >= PTN_ENTRY_SIZE
  {
    forall i :: 0 <= i < |names| ==> !Matches(e, names[i])
  }

  /** An entry that matches no listed name stays where it is, byte for byte. */
  lemma {:induction false} UnlistedStays(es: seq<Entry>, names: seq<string>, k: nat)
    requires Table(es) && k < |es| && MatchesNone(es[k], names)
    ensures SwapAll(es, names)[k] == es[k]
    decreases |names|
  {
    if names != [] {
      assert !Matches(es[k], names[0]);
      assert SwapOne(es, names[0])[k] == es[k];
      UnlistedStays(SwapOne(es, names[0]), names[1..], k);
    }
  }

  /**
   After the swap the first match of every paired name holds what its second match held, and
   the reverse: looking a partition up now finds its backup.
   */
  lemma {:induction false} LookupFlips(es: seq<Entry>, names: seq<string>, n: nat)
    requires Table(es) && Separate(names) && n < |names| && HasPair(es, names[n])
    ensures var r, x := SwapAll(es, names), names[n];
      && First(r, x) == First(es, x) && HasPair(r, x) && Second(r, x) == Second(es, x)
      && Head(r[First(r, x)]) == Head(es[Second(es, x)])
      && Head(r[Second(r, x)]) == Head(es[First(es, x)])
    decreases |names|
  {
    hide Matches, Apart, Seek, SameMatches;
    var x := names[n];
    SeparateApart(names, n);
    SwapAllKeepsMatches(es, names, x);
    PairStable(SwapAll(es, names), es, x);
    SeparateTail(names);
    var i, j, one := First(es, x), Second(es, x), SwapOne(es, names[0]);
    SeekMatches(es, x);
    if n == 0 {
      FirstNameFlips(es, x, names[1..]);
    } else {
      assert x == names[1..][n - 1];
      SwapKeepsMatches(es, names[0], x);
      PairStable(one, es, x);
      StaysApart(es, names[0], x, i);
      StaysApart(es, names[0], x, j);
      LookupFlips(one, names[1..], n - 1);
    }
  }

  lemma SeparateApart(names: seq<string>, n: nat)
    requires Separate(names) && n < |names|
    ensures '\0' !in names[n] && forall i :: 0 <= i < |names| ==> names[i] == names[n] || Apart(names[i], names[n])
  {
  }

  lemma SeekMatches(es: seq<Entry>, x: string)
    requires Table(es) && HasPair(es, x)
    ensures First(es, x) < Second(es, x) < |es|
    ensures Matches(es[First(es, x)], x) && Matches(es[Second(es, x)], x)
  {
  }

  /** A swap under a name leaves the matches of a name apart from it where they are. */
  lemma StaysApart(es: seq<Entry>, name: string, x: string, k: nat)
    requires Table(es) && '\0' !in name && '\0' !in x && Apart(name, x) && k < |es| && Matches(es[k], x)
    ensures SwapOne(es, name)[k] == es[k]
  {
    hide Matches, Apart, Head;
    ApartNeverBoth(es[k], name, x);
  }

  lemma FirstNameFlips(es: seq<Entry>, x: string, rest: seq<string>)
    requires Table(es) && HasPair(es, x) && '\0' !in x
    requires forall m :: 0 <= m < |rest| ==> '\0' !in rest[m] && Apart(x, rest[m])
    ensures var r := SwapAll(SwapOne(es, x), rest);
      && Head(r[First(es, x)]) == Head(es[Second(es, x)])
      && Head(r[Second(es, x)]) == Head(es[First(es, x)])
  {
    hide Matches, Apart, SwapAll;
    var i, j, one := First(es, x), Second(es, x), SwapOne(es, x);
    SwapKeepsMatches(es, x, x);
    forall k | k == i || k == j ensures MatchesNone(one[k], rest) {
      forall m | 0 <= m < |rest| ensures !Matches(one[k], rest[m]) {
        ApartNeverBoth(one[k], x, rest[m]);
      }
    }
    UnlistedStays(one, rest, i);
    UnlistedStays(one, rest, j);
    ExchangeHeads(es, i, j);
  }

  lemma ExchangeHeads(es: seq<Entry>, i: nat, j: nat)
    requires Table(es) && i < j < |es|
    ensures Head(Exchange(es, i, j)[i]) == Head(es[j]) && Head(Exchange(es, i, j)[j]) == Head(es[i])
  {
  }

  lemma {:induction false} SwapAllKeepsMatches(es: seq<Entry>, names: seq<string>, x: string)
    requires Table(es) && Separate(names) && '\0' !in x
    requires forall i :: 0 <= i < |names| ==> names[i] == x || Apart(names[i], x)
    ensures SameMatches(SwapAll(es, names), es, x)
    decreases |names|
  {
    if names != [] {
      SwapKeepsMatches(es, names[0], x);
      SeparateTail(names);
      SwapAllKeepsMatches(SwapOne(es, names[0]), names[1..], x);
    }
  }

  /** The swap reports a backup exactly when some listed name has a pair in the given table. */
  lemma {:induction false} FoundIffPair(es: seq<Entry>, names: seq<string>)
    requires Table(es) && Separate(names)
    ensures Found(es, names) <==> exists n :: 0 <= n < |names| && HasPair(es, names[n])
    decreases |names|
  {
    if names != [] {
      var one, rest := SwapOne(es, names[0]), names[1..];
      SeparateTail(names);
      FoundIffPair(one, rest);
      forall n | 0 <= n < |rest| ensures HasPair(one, rest[n]) == HasPair(es, names[n + 1]) {
        SwapKeepsMatches(es, names[0], rest[n]);
        PairStable(one, es, rest[n]);
      }
      if n :| 0 <= n < |names| && HasPair(es, names[n]) {
        assert n > 0 ==> HasPair(one, rest[n - 1]);
      }
    }
  }

  predicate Uniform(es: seq<Entry>, size: nat) {
    forall k :: 0 <= k < |es| ==> |es[k]| == size
  }

  lemma {:induction false} SwapAllUniform(es: seq<Entry>, names: seq<string>, size: nat)
    requires Table(es) && Uniform(es, size)
    ensures Uniform(SwapAll(es, names), size)
    decreases |names|
  {
    if names != [] {
      SwapAllUniform(SwapOne(es, names[0]), names[1..], size);
    }
  }

  /** With entries of 128 bytes the swap only permutes them. */
  lemma {:induction false} SwapAllPermutes(es: seq<Entry>, names: seq<string>)
    requires Table(es) && Uniform(es, PTN_ENTRY_SIZE)
    ensures multiset(SwapAll(es, names)) == multiset(es)
    decreases |names|
  {
    if names != [] {
      var one := SwapOne(es, names[0]);
      if HasPair(es, names[0]) {
        var i, j := First(es, names[0]), Second(es, names[0]);
        assert one[i] == es[j] && one[j] == es[i];
        assert one == es[i := es[j]][j := es[i]];
      }
      SwapAllPermutes(one, names[1..]);
    }
  }

  //// The built-in list

  predicate HasPrefix(s: string, p: string) {
    |p| <= |s| && s[..|p|] == p
  }

  /** The partitions a UFS device switches by boot LUN instead. */
  predicate SkippedOnUfs(name: string) {
    HasPrefix(name, "xbl") || HasPrefix(name, "multiimgoem") || HasPrefix(name, "multiimgqti")
  }

  /** The names of a list that a device of the given kind swaps. */
  function Kept(names: seq<string>, ufs: bool): (r: seq<string>)
    ensures forall n :: n in r ==> n in names
  {
    if names == [] then []
    else if ufs && SkippedOnUfs(names[0]) then Kept(names[1..], ufs)
    else [names[0]] + Kept(names[1..], ufs)
  }

  lemma {:induction false} KeptSeparate(names: seq<string>, ufs: bool)
    requires Separate(names)
    ensures Separate(Kept(names, ufs))
  {
    if names != [] {
      SeparateTail(names);
      KeptSeparate(names[1..], ufs);
      var rest := Kept(names[1..], ufs);
      forall i | 0 <= i < |rest| ensures Apart(names[0], rest[i]) {
        assert rest[i] in names[1..];
      }
    }
  }

  lemma SwapListDistinct(i: nat, j: nat)
    requires i < j < |SWAP_LIST|
    ensures SWAP_LIST[i] != SWAP_LIST[j]
  {
    if i < 6 {
    } else if i < 14 {
    }
  }

  lemma SwapListLastLetter(i: nat)
    requires i < |SWAP_LIST|
    ensures SWAP_LIST[i] != [] && SWAP_LIST[i][|SWAP_LIST[i]| - 1] != 'k'
  {
  }

  lemma SwapListNoNul(i: nat)
    requires i < |SWAP_LIST|
    ensures '\0' !in SWAP_LIST[i]
  {
  }

  lemma NotATwin(name: string, other: string)
    requires name != [] && name[|name| - 1] != 'k'
    ensures name != other + BAK
  {
    assert (other + BAK)[|other + BAK| - 1] == 'k';
  }

  /** The built-in list meets the separation that the results above ask for. */
  lemma SwapListSeparate()
    ensures Separate(SWAP_LIST)
  {
    forall i | 0 <= i < |SWAP_LIST| ensures '\0' !in SWAP_LIST[i] {
      SwapListNoNul(i);
    }
    forall i, j | 0 <= i < j < |SWAP_LIST| ensures Apart(SWAP_LIST[i], SWAP_LIST[j]) {
      SwapListDistinct(i, j);
      SwapListLastLetter(i);
      SwapListLastLetter(j);
      NotATwin(SWAP_LIST[i], SWAP_LIST[j]);
      NotATwin(SWAP_LIST[j], SWAP_LIST[i]);
    }
  }

  lemma {:induction false} KeptIff(names: seq<string>, ufs: bool, x: string)
    ensures x in Kept(names, ufs) <==> x in names && !(ufs && SkippedOnUfs(x))
  {
    hide SkippedOnUfs;
    if names != [] {
      KeptIff(names[1..], ufs, x);
      assert names == [names[0]] + names[1..];
    }
  }

  lemma SkippedStays(es: seq<Entry>, names: seq<string>, i: nat, k: nat)
    requires Table(es) && k < |es| && Separate(names) && i < |names| && SkippedOnUfs(names[i])
    requires IsTwin(CString(Name8(es[k])), names[i])
    ensures SwapAll(es, Kept(names, true))[k] == es[k]
  {
    hide Matches, CString, Name8, SwapAll, Apart, SkippedOnUfs, IsTwin;
    var x, kept := names[i], Kept(names, true);
    SeparateApart(names, i);
    MatchesIffTwin(es[k], x);
    KeptIff(names, true, x);
    forall m | 0 <= m < |kept| ensures !Matches(es[k], kept[m]) {
      assert kept[m] in kept;
      var j: nat :| j < |names| && names[j] == kept[m];
      SeparateApart(names, j);
      ApartNeverBoth(es[k], kept[m], x);
    }
    UnlistedStays(es, kept, k);
  }

  /** On a UFS device the boot loader's partitions, and their twins, never move. */
  lemma BootLoaderStaysOnUfs(es: seq<Entry>, k: nat, x: string)
    requires Table(es) && k < |es| && x in {"xbl", "xbl_config", "multiimgoem", "multiimgqti"}
    requires CString(Name8(es[k])) in {x, x + "bak"}
    ensures SwapAll(es, Kept(SWAP_LIST, true))[k] == es[k]
  {
    hide CString, Name8, SwapAll, Kept;
    SwapListSeparate();
    SkippedNames(x);
    var i: nat :| i < |SWAP_LIST| && SWAP_LIST[i] == x;
    SkippedStays(es, SWAP_LIST, i, k);
  }

  lemma SkippedNames(x: string)
    requires x in {"xbl", "xbl_config", "multiimgoem", "multiimgqti"}
    ensures SkippedOnUfs(x) && exists i: nat :: i < |SWAP_LIST| && SWAP_LIST[i] == x
  {
    assert SWAP_LIST[0] == "xbl" && SWAP_LIST[1] == "xbl_config" && SWAP_LIST[2] == "multiimgoem" && SWAP_LIST[3] == "multiimgqti";
    if x != "xbl" && x != "xbl_config" {
      assert x[..11] == x;
    } else {
      assert x[..3] == "xbl";
    }
  }

  /** Every other listed name is swapped on either kind of device, and off UFS all of them are. */
  lemma OthersAreSwapped(i: nat, ufs: bool)
    requires i < |SWAP_LIST| && (i >= 4 || !ufs)
    ensures SWAP_LIST[i] in Kept(SWAP_LIST, ufs)
  {
    KeptIff(SWAP_LIST, ufs, SWAP_LIST[i]);
    if i >= 4 {
      NotSkipped(i);
    }
  }

  lemma NotSkipped(i: nat)
    requires 4 <= i < |SWAP_LIST|
    ensures !SkippedOnUfs(SWAP_LIST[i])
  {
    var n := SWAP_LIST[i];
    assert n[0] != 'x' && |n| < 11;
    PrefixHead(n, "xbl");
    PrefixHead(n, "multiimgoem");
    PrefixHead(n, "multiimgqti");
  }

  lemma PrefixHead(s: string, p: string)
    requires p != []
    ensures HasPrefix(s, p) ==> |p| <= |s| && s[0] == p[0]
  {
    if HasPrefix(s, p) {
      assert s[0] == s[..|p|][0];
    }
  }

  /** Whatever lies behind the first 128 bytes of an entry stays where it is. */
  lemma {:induction false} TailsStay(es: seq<Entry>, names: seq<string>, k: nat)
    requires Table(es) && k < |es|
    ensures SwapAll(es, names)[k][128..] == es[k][128..]
    decreases |names|
  {
    hide Matches, Exchange;
    if names != [] {
      if HasPair(es, names[0]) {
        ExchangeTails(es, First(es, names[0]), Second(es, names[0]), k);
      }
      TailsStay(SwapOne(es, names[0]), names[1..], k);
    }
  }

  lemma ExchangeTails(es: seq<Entry>, i: nat, j: nat, k: nat)
    requires Table(es) && i < j < |es| && k < |es|
    ensures Exchange(es, i, j)[k][128..] == es[k][128..]
  {
    var r := Exchange(es, i, j);
    if k == j {
      assert r[k] == Head(es[i]) + es[j][128..];
    } else if k == i {
      assert r[k] == Head(es[j]) + es[i][128..];
    }
  }
}
