/** Directories as byte strings of 16-byte records, and the finite map they stand for. */
module DirFormat {
  import opened Bytes
  import opened FileData

  const DIRSIZ := 14
  const DIRENT := 16

  /** A name as strncmp(_, _, DIRSIZ) sees it: the bytes before the first NUL, at most 14. */
  type Key = seq<byte>

  function KeyOf(b: seq<byte>, n: nat): (k: Key)
    ensures |k| <= n && |k| <= |b| && k == b[..|k|] && 0 !in k
    ensures |k| < n && |k| < |b| ==> b[|k|] == 0
  {
    if n == 0 || b == [] || b[0] == 0 then [] else [b[0]] + KeyOf(b[1..], n - 1)
  }

  /** strncpy(de.name, name, DIRSIZ): copy up to the terminator, then pad with NULs. */
  function Pad(name: seq<byte>): (r: seq<byte>)
    ensures |r| == DIRSIZ
    ensures forall j: nat | |KeyOf(name, DIRSIZ)| <= j < DIRSIZ :: r[j] == 0
  {
    var k := KeyOf(name, DIRSIZ);
    k + seq(DIRSIZ - |k|, _ => 0)
  }

  lemma {:induction false} KeyOfPrefix(k: seq<byte>, rest: seq<byte>, n: nat)
    requires 0 !in k && |k| <= n && (|k| < n && rest != [] ==> rest[0] == 0)
    ensures KeyOf(k + rest, n) == k
    decreases |k|
  {
    if k == [] {
      assert k + rest == rest;
    } else {
      assert (k + rest)[1..] == k[1..] + rest;
      KeyOfPrefix(k[1..], rest, n - 1);
    }
  }

  /** Padding a name keeps the key that looks it up again. */
  lemma PadKey(name: seq<byte>)
    ensures KeyOf(Pad(name), DIRSIZ) == KeyOf(name, DIRSIZ)
  {
    var k := KeyOf(name, DIRSIZ);
    KeyOfPrefix(k, seq(DIRSIZ - |k|, _ => 0), DIRSIZ);
  }

  // --- records -------------------------------------------------------------

  function Encode(inum: uint16, name: seq<byte>): (r: seq<byte>)
    requires |name| == DIRSIZ
    ensures |r| == DIRENT
  {
    [inum % 256, inum / 256] + name
  }

  function Count(c: seq<byte>): nat {
    |c| / DIRENT
  }

  function Inum(c: seq<byte>, e: nat): uint16
    requires e < Count(c)
  {
    GetHalf(c, DIRENT * e)
  }

  function NameAt(c: seq<byte>, e: nat): Key
    requires e < Count(c)
  {
    KeyOf(c[DIRENT * e + 2..DIRENT * e + 16], DIRSIZ)
  }

  /** struct dirent, field by field: the number low byte first, then the name up to a NUL, of 14 bytes at most. */
  lemma RecordBytes(c: seq<byte>, e: nat)
    requires e < Count(c)
    ensures var at, k := 16 * e, NameAt(c, e);
            && at + 16 <= |c| && Inum(c, e) == c[at] as int + 0x100 * c[at + 1] as int
            && |k| <= 14 && k == c[at + 2..at + 2 + |k|] && 0 !in k && (|k| < 14 ==> c[at + 2 + |k|] == 0)
  {
    var b := c[DIRENT * e + 2..DIRENT * e + 16];
    assert b[..|NameAt(c, e)|] == c[DIRENT * e + 2..DIRENT * e + 2 + |NameAt(c, e)|];
  }

  predicate Live(c: seq<byte>, e: nat) {
    e < Count(c) && Inum(c, e) != 0
  }

  /** The first free record at or after e, the end of the directory included. */
  function FreeFrom(c: seq<byte>, e: nat): (r: nat)
    requires e <= Count(c)
    ensures e <= r <= Count(c) && !Live(c, r)
    ensures forall f: nat | e <= f < r :: Live(c, f)
    decreases Count(c) - e
  {
    if Live(c, e) then FreeFrom(c, e + 1) else e
  }

  /** Whole records, no name twice. */
  ghost predicate DirOk(c: seq<byte>) {
    && |c| % DIRENT == 0
    && forall e: nat, f: nat | e < f && Live(c, e) && Live(c, f) :: NameAt(c, e) != NameAt(c, f)
  }

  /** The first live record with name k at or after e; Count(c) when there is none. */
  function Find(c: seq<byte>, k: Key, e: nat): (r: nat)
    requires e <= Count(c)
    ensures e <= r <= Count(c)
    ensures r < Count(c) ==> Live(c, r) && NameAt(c, r) == k
    ensures forall f: nat | e <= f < r && Live(c, f) :: NameAt(c, f) != k
    decreases Count(c) - e
  {
    if e == Count(c) || (Live(c, e) && NameAt(c, e) == k) then e else Find(c, k, e + 1)
  }

  function Keys(c: seq<byte>): set<Key> {
    set e: nat | e < Count(c) && Live(c, e) :: NameAt(c, e)
  }

  /** The directory as a finite map from names to inode numbers. */
  function DirMap(c: seq<byte>): (m: map<Key, nat>)
    ensures m.Keys == Keys(c)
  {
    map k | k in Keys(c) :: var e := Find(c, k, 0); if e < Count(c) then Inum(c, e) else 0
  }

  /** Lookup in the map is the linear scan, and every live record is in the map. */
  lemma LookupIsScan(c: seq<byte>, k: Key)
    ensures k in DirMap(c) <==> Find(c, k, 0) < Count(c)
    ensures k in DirMap(c) ==> DirMap(c)[k] == Inum(c, Find(c, k, 0)) != 0
  {
    if k in DirMap(c) {
      var e: nat :| e < Count(c) && Live(c, e) && NameAt(c, e) == k;
    }
  }

  lemma LiveInMap(c: seq<byte>, e: nat)
    requires DirOk(c) && Live(c, e)
    ensures NameAt(c, e) in DirMap(c) && DirMap(c)[NameAt(c, e)] == Inum(c, e)
    ensures Find(c, NameAt(c, e), 0) == e
  {
    LookupIsScan(c, NameAt(c, e));
  }

  /** A directory has no more names than records. */
  lemma MapSize(c: seq<byte>)
    ensures |DirMap(c)| <= Count(c)
  {
    KeysSize(c, Count(c));
    assert Keys(c) == KeysUpTo(c, Count(c));
    assert |DirMap(c).Keys| == |DirMap(c)|;
  }

  /** The records before the first free one all have names of their own. */
  lemma {:induction false} FreeWithin(c: seq<byte>, n: nat)
    requires DirOk(c) && n <= FreeFrom(c, 0)
    ensures |KeysUpTo(c, n)| == n && KeysUpTo(c, n) <= DirMap(c).Keys
    decreases n
  {
    hide KeyOf, NameAt, Inum, DirOk, DirMap;
    if n > 0 {
      FreeWithin(c, n - 1);
      OneMoreKey(c, n - 1);
    }
  }

  lemma OneMoreKey(c: seq<byte>, n: nat)
    requires DirOk(c) && Live(c, n)
    ensures KeysUpTo(c, n + 1) == KeysUpTo(c, n) + {NameAt(c, n)} && NameAt(c, n) !in KeysUpTo(c, n)
    ensures NameAt(c, n) in DirMap(c)
  {
    hide KeyOf, NameAt, Inum;
  }

  function KeysUpTo(c: seq<byte>, n: nat): set<Key>
    requires n <= Count(c)
  {
    set e: nat | e < n && Live(c, e) :: NameAt(c, e)
  }

  lemma {:induction false} KeysSize(c: seq<byte>, n: nat)
    requires n <= Count(c)
    ensures |KeysUpTo(c, n)| <= n
  {
    hide NameAt, KeyOf, Inum;
    if n > 0 {
      KeysSize(c, n - 1);
      var front := KeysUpTo(c, n - 1);
      if Live(c, n - 1) {
        assert KeysUpTo(c, n) == front + {NameAt(c, n - 1)};
      } else {
        assert KeysUpTo(c, n) == front;
      }
    }
  }

  // --- writing one record ---------------------------------------------------

  function PutEntry(c: seq<byte>, e: nat, inum: uint16, name: seq<byte>): seq<byte>
    requires |c| % DIRENT == 0 && e <= Count(c) && |name| == DIRSIZ
  {
    Splice(c, DIRENT * e, Encode(inum, name))
  }

  lemma PutEntryReads(c: seq<byte>, e: nat, inum: uint16, name: seq<byte>)
    requires |c| % DIRENT == 0 && e <= Count(c) && |name| == DIRSIZ
    ensures var r := PutEntry(c, e, inum, name);
            && |r| % DIRENT == 0 && Count(r) == Max(Count(c), e + 1)
            && Inum(r, e) == inum && NameAt(r, e) == KeyOf(name, DIRSIZ)
            && forall f: nat | f < Count(c) && f != e :: Inum(r, f) == Inum(c, f) && NameAt(r, f) == NameAt(c, f)
  {
    var r := PutEntry(c, e, inum, name);
    assert r[DIRENT * e + 2..DIRENT * e + 16] == name;
    assert r[DIRENT * e] == inum % 256 && r[DIRENT * e + 1] == inum / 256;
    forall f: nat | f < Count(c) && f != e
      ensures Inum(r, f) == Inum(c, f) && NameAt(r, f) == NameAt(c, f)
    {
      assert r[DIRENT * f + 2..DIRENT * f + 16] == c[DIRENT * f + 2..DIRENT * f + 16];
    }
  }

  /** A record with an absent name, written over a free record or at the end, adds one binding. */
  lemma InsertEntry(c: seq<byte>, e: nat, inum: uint16, name: seq<byte>)
    requires DirOk(c) && e <= Count(c) && |name| == DIRSIZ && inum != 0
    requires !Live(c, e) && KeyOf(name, DIRSIZ) !in DirMap(c)
    ensures var r := PutEntry(c, e, inum, name);
            DirOk(r) && DirMap(r) == DirMap(c)[KeyOf(name, DIRSIZ) := inum]
  {
    hide KeyOf, NameAt, Inum, PutEntry;
    var r := PutEntry(c, e, inum, name);
    var key := KeyOf(name, DIRSIZ);
    PutEntryReads(c, e, inum, name);
    forall f: nat | f != e && Live(c, f)
      ensures Live(r, f) && NameAt(r, f) == NameAt(c, f) != key
    {
      LiveInMap(c, f);
    }
    forall f: nat | f != e && Live(r, f)
      ensures Live(c, f)
    {
    }
    assert DirOk(r);
    SameMap(r, DirMap(c)[key := inum]) by {
      forall f: nat | Live(r, f)
        ensures DirMap(c)[key := inum][NameAt(r, f)] == Inum(r, f) && NameAt(r, f) in DirMap(c)[key := inum]
      {
        if f != e {
          LiveInMap(c, f);
        }
      }
      var m := DirMap(c)[key := inum];
      forall k | k in m
        ensures exists f: nat :: Live(r, f) && NameAt(r, f) == k
      {
        LookupIsScan(c, k);
        var f := if k == key then e else Find(c, k, 0);
        assert Live(r, f) && NameAt(r, f) == k;
      }
    }
  }

  /** Zeroing a live record removes exactly its name. */
  lemma RemoveEntry(c: seq<byte>, e: nat)
    requires DirOk(c) && Live(c, e)
    ensures var r := PutEntry(c, e, 0, seq(DIRSIZ, _ => 0));
            DirOk(r) && |r| == |c| && DirMap(r) == DirMap(c) - {NameAt(c, e)}
            && forall f: nat :: Live(r, f) <==> f != e && Live(c, f)
  {
    hide KeyOf, NameAt, Inum;
    var zeros: seq<byte> := seq(DIRSIZ, _ => 0);
    var r := PutEntry(c, e, 0, zeros);
    PutEntryReads(c, e, 0, zeros);
    forall f: nat
      ensures Live(r, f) <==> f != e && Live(c, f)
    {
    }
    assert DirOk(r);
    SameMap(r, DirMap(c) - {NameAt(c, e)}) by {
      forall f: nat | Live(r, f)
        ensures NameAt(r, f) in DirMap(c) - {NameAt(c, e)} && (DirMap(c) - {NameAt(c, e)})[NameAt(r, f)] == Inum(r, f)
      {
        LiveInMap(c, f);
        assert f < e || e < f;
      }
      forall k | k in DirMap(c) - {NameAt(c, e)}
        ensures exists f: nat :: Live(r, f) && NameAt(r, f) == k
      {
        LookupIsScan(c, k);
        var f := Find(c, k, 0);
        assert Live(r, f) && NameAt(r, f) == k;
      }
    }
  }

  /** A directory's map is settled by its live records. */
  lemma SameMap(c: seq<byte>, m: map<Key, nat>)
    requires DirOk(c)
    requires forall e: nat | Live(c, e) :: NameAt(c, e) in m && m[NameAt(c, e)] == Inum(c, e)
    requires forall k | k in m :: exists e: nat :: Live(c, e) && NameAt(c, e) == k
    ensures DirMap(c) == m
  {
    forall k | k in m
      ensures k in DirMap(c) && DirMap(c)[k] == m[k]
    {
      var e: nat :| Live(c, e) && NameAt(c, e) == k;
      LiveInMap(c, e);
    }
  }
}
