// The block that holds the tags of a mail: strings one after another, and behind them a table of where they are.
// It is sent between processes as it is, so it has offsets in it and no pointers.

module StrbBytes {
  import opened Options
  import opened MailText

  const ENTRY_SIZE := 16

  // ---------------------------------------------------------------- numbers as eight bytes

  function Bytes(n: nat, width: nat): (r: string)
    ensures |r| == width
  {
    if width == 0 then "" else [(n % 256) as char] + Bytes(n / 256, width - 1)
  }

  function Number(bytes: string): nat {
    if bytes == "" then 0 else bytes[0] as nat + 256 * Number(bytes[1..])
  }

  function Power(width: nat): nat {
    if width == 0 then 1 else 256 * Power(width - 1)
  }

  lemma {:induction false} NumberBack(n: nat, width: nat)
    requires n < Power(width)
    ensures Number(Bytes(n, width)) == n
  {
    if width > 0 {
      NumberBack(n / 256, width - 1);
      assert Bytes(n, width)[1..] == Bytes(n / 256, width - 1);
    }
  }

  // ---------------------------------------------------------------- what is in a block

  /** A string with its NUL, below a limit. */
  ghost predicate StringAt(m: string, off: nat, s: string, limit: nat) {
    off + |s| < limit <= |m| && m[off..off + |s|] == s && m[off + |s|] == '\0' && NulFree(s)
  }

  /** An entry of the table: the offsets of key and value. */
  function EntryAt(m: string, at: nat): (nat, nat)
    requires at + ENTRY_SIZE <= |m|
  {
    (Number(m[at..at + 8]), Number(m[at + 8..at + ENTRY_SIZE]))
  }

  ghost predicate TagAt(m: string, at: nat, tag: (string, string), limit: nat) {
    && at + ENTRY_SIZE <= |m|
    && var (k, v) := EntryAt(m, at);
       StringAt(m, k, tag.0, limit) && StringAt(m, v, tag.1, limit)
  }

  /** The block holds some tags in this order: its table starts at base, and its strings end before the limit. */
  ghost predicate Holds(m: string, base: nat, limit: nat, tags: seq<(string, string)>) {
    forall i :: 0 <= i < |tags| ==> TagAt(m, base + ENTRY_SIZE * i, tags[i], limit)
  }

  function Patch(m: string, off: nat, data: string): (r: string)
    requires off + |data| <= |m|
    ensures |r| == |m|
  {
    m[..off] + data + m[off + |data|..]
  }

  /** The strings are the same, and so is an entry, perhaps elsewhere: so the tag is. */
  lemma TagKept(m: string, m1: string, at: nat, at1: nat, tag: (string, string), limit: nat, limit1: nat)
    requires TagAt(m, at, tag, limit) && limit <= limit1 <= |m1| && limit <= |m| && m1[..limit] == m[..limit]
    requires at1 + ENTRY_SIZE <= |m1| && m1[at1..at1 + ENTRY_SIZE] == m[at..at + ENTRY_SIZE]
    ensures TagAt(m1, at1, tag, limit1)
  {
    hide Number;
    var e := m[at..at + ENTRY_SIZE];
    assert m[at..at + 8] == e[..8] && m[at + 8..at + ENTRY_SIZE] == e[8..];
    assert m1[at1..at1 + 8] == e[..8] && m1[at1 + 8..at1 + ENTRY_SIZE] == e[8..];
    var (k, v) := EntryAt(m, at);
    StringKept(m, m1, k, tag.0, limit, limit1);
    StringKept(m, m1, v, tag.1, limit, limit1);
  }

  lemma StringKept(m: string, m1: string, off: nat, s: string, limit: nat, limit1: nat)
    requires StringAt(m, off, s, limit) && limit <= limit1 <= |m1| && limit <= |m| && m1[..limit] == m[..limit]
    ensures StringAt(m1, off, s, limit1)
  {
    assert m1[off..off + |s|] == m1[..limit][off..off + |s|];
    assert m[off..off + |s|] == m[..limit][off..off + |s|];
    assert m1[off + |s|] == m1[..limit][off + |s|];
  }

  lemma PartOfPart(m: string, base: nat, size: nat, at: nat)
    requires base + size <= |m| && at + ENTRY_SIZE <= size
    ensures m[base..base + size][at..at + ENTRY_SIZE] == m[base + at..base + at + ENTRY_SIZE]
  {
    var a, b := m[base..base + size][at..at + ENTRY_SIZE], m[base + at..base + at + ENTRY_SIZE];
    assert |a| == |b|;
    forall k | 0 <= k < |a| ensures a[k] == b[k] {
      assert a[k] == m[base..base + size][at + k];
    }
  }

  /** Moving the table keeps all tags. */
  lemma AllKept(m: string, m1: string, base: nat, base1: nat, tags: seq<(string, string)>, limit: nat, limit1: nat)
    requires Holds(m, base, limit, tags) && limit <= limit1 <= |m1| && limit <= |m| && m1[..limit] == m[..limit]
    requires base1 + ENTRY_SIZE * |tags| <= |m1| && base + ENTRY_SIZE * |tags| <= |m|
    requires m1[base1..base1 + ENTRY_SIZE * |tags|] == m[base..base + ENTRY_SIZE * |tags|]
    ensures Holds(m1, base1, limit1, tags)
  {
    hide TagAt;
    var t, t1 := m[base..base + ENTRY_SIZE * |tags|], m1[base1..base1 + ENTRY_SIZE * |tags|];
    forall i | 0 <= i < |tags| ensures TagAt(m1, base1 + ENTRY_SIZE * i, tags[i], limit1) {
      var at, at1 := base + ENTRY_SIZE * i, base1 + ENTRY_SIZE * i;
      PartOfPart(m, base, ENTRY_SIZE * |tags|, ENTRY_SIZE * i);
      PartOfPart(m1, base1, ENTRY_SIZE * |tags|, ENTRY_SIZE * i);
      TagKept(m, m1, at, at1, tags[i], limit, limit1);
    }
  }

  lemma NewString(m: string, off: nat, s: string)
    requires off + |s| + 1 <= |m| && NulFree(s)
    ensures StringAt(Patch(m, off, s + "\0"), off, s, off + |s| + 1)
    ensures Patch(m, off, s + "\0")[..off] == m[..off]
    ensures Patch(m, off, s + "\0")[off + |s| + 1..] == m[off + |s| + 1..]
  {
    var m1 := Patch(m, off, s + "\0");
    assert m1[off..off + |s|] == s;
  }

  /** Writing an entry. */
  lemma NewEntry(m: string, at: nat, key: nat, value: nat)
    requires at + ENTRY_SIZE <= |m| && key < Power(8) && value < Power(8)
    ensures var m1 := Patch(m, at, Bytes(key, 8) + Bytes(value, 8));
            && EntryAt(m1, at) == (key, value) && m1[..at] == m[..at] && m1[at + ENTRY_SIZE..] == m[at + ENTRY_SIZE..]
  {
    hide Number, Bytes;
    var m1 := Patch(m, at, Bytes(key, 8) + Bytes(value, 8));
    assert m1[at..at + 8] == Bytes(key, 8) && m1[at + 8..at + ENTRY_SIZE] == Bytes(value, 8);
    NumberBack(key, 8);
    NumberBack(value, 8);
  }

  // ---------------------------------------------------------------- tags as a map

  /** Where the key is, or the number of tags. */
  function Index(tags: seq<(string, string)>, key: string): (r: nat)
    ensures r <= |tags| && (r < |tags| ==> tags[r].0 == key) && forall i :: 0 <= i < r ==> tags[i].0 != key
  {
    if tags == [] || tags[0].0 == key then 0 else 1 + Index(tags[1..], key)
  }

  function Lookup(tags: seq<(string, string)>, key: string): Option<string> {
    var i := Index(tags, key);
    if i < |tags| then Some(tags[i].1) else None
  }

  function Put(tags: seq<(string, string)>, key: string, value: string): seq<(string, string)> {
    var i := Index(tags, key);
    if i < |tags| then tags[i := (key, value)] else tags + [(key, value)]
  }

  /** A key has the value put last, and the others keep theirs. */
  lemma PutThenLookup(tags: seq<(string, string)>, key: string, value: string, k: string)
    ensures Lookup(Put(tags, key, value), k) == if k == key then Some(value) else Lookup(tags, k)
  {
    var i, more := Index(tags, key), Put(tags, key, value);
    assert more[i] == (key, value);
    assert forall j :: 0 <= j < |tags| && j != i ==> more[j] == tags[j];
    var a, b := Index(tags, k), Index(more, k);
    if k != key {
      assert a < |tags| ==> more[a] == tags[a];
      assert b < |more| ==> b != i && more[b] == tags[b];
    }
  }

  function PutAll(adds: seq<(string, string)>): seq<(string, string)> {
    if adds == [] then []
    else
      var last := adds[|adds| - 1];
      Put(PutAll(adds[..|adds| - 1]), last.0, last.1)
  }

  /** The value last added for a key. */
  function Last(adds: seq<(string, string)>, key: string): Option<string> {
    if adds == [] then None
    else if adds[|adds| - 1].0 == key then Some(adds[|adds| - 1].1)
    else Last(adds[..|adds| - 1], key)
  }

  function KeySet(tags: seq<(string, string)>): set<string> {
    set i | 0 <= i < |tags| :: tags[i].0
  }

  ghost predicate DistinctKeys(tags: seq<(string, string)>) {
    forall i, j :: 0 <= i < j < |tags| ==> tags[i].0 != tags[j].0
  }

  /** After any adds, each key has the value last added, and there are as many tags as keys. */
  lemma {:induction false} AddsRefineMap(adds: seq<(string, string)>, key: string)
    ensures Lookup(PutAll(adds), key) == Last(adds, key)
    ensures DistinctKeys(PutAll(adds)) && KeySet(PutAll(adds)) == KeySet(adds) && |PutAll(adds)| == |KeySet(adds)|
    decreases |adds|
  {
    if adds != [] {
      hide Put, Lookup, KeySet, DistinctKeys;
      var before, last := adds[..|adds| - 1], adds[|adds| - 1];
      AddsRefineMap(before, key);
      var tags := PutAll(before);
      PutThenLookup(tags, last.0, last.1, key);
      PutKeys(tags, last.0, last.1);
      LastKey(adds);
      CountKeys(PutAll(adds));
    }
  }

  lemma LastKey(adds: seq<(string, string)>)
    requires adds != []
    ensures KeySet(adds) == KeySet(adds[..|adds| - 1]) + {adds[|adds| - 1].0}
  {
    var before, last := adds[..|adds| - 1], adds[|adds| - 1];
    assert adds == before + [last];
  }

  lemma PutKeys(tags: seq<(string, string)>, key: string, value: string)
    requires DistinctKeys(tags)
    ensures DistinctKeys(Put(tags, key, value)) && KeySet(Put(tags, key, value)) == KeySet(tags) + {key}
  {
    var i, more := Index(tags, key), Put(tags, key, value);
    assert more[i].0 == key;
    forall k ensures k in KeySet(more) <==> k in KeySet(tags) + {key} {
      if k in KeySet(tags) {
        var j :| 0 <= j < |tags| && tags[j].0 == k;
        assert more[j].0 == k;
      }
    }
  }

  lemma {:induction false} CountKeys(tags: seq<(string, string)>)
    requires DistinctKeys(tags)
    ensures |KeySet(tags)| == |tags|
    decreases |tags|
  {
    if tags != [] {
      var before, last := tags[..|tags| - 1], tags[|tags| - 1];
      CountKeys(before);
      assert tags == before + [last];
      assert KeySet(tags) == KeySet(before) + {last.0};
    }
  }
}

module Strb {
  import opened Options
  import opened MailText
  import opened StrbBytes

  const OFFSET := 64
  const ENTRIES := 64
  const BLOCK := 1024
  const SIZE_MAX := 0xFFFF_FFFF_FFFF_FFFF

  function Doubled(size: nat, times: nat): nat
    decreases times
  {
    if times == 0 then size else Doubled(2 * size, times - 1)
  }

  /**
   * The strings can be made room for: some doubling of the string area holds them, and no block that had to be
   * doubled on the way was more than half the largest size.
   */
  ghost predicate CanHold(size: nat, entMax: nat, needed: nat) {
    exists times: nat ::
      Doubled(size, times) >= needed && (times > 0 ==> OFFSET + Doubled(size, times - 1) + ENTRY_SIZE * entMax <= SIZE_MAX / 2)
  }

  lemma CanHoldStep(size: nat, entMax: nat, needed: nat)
    requires size > 0
    ensures CanHold(size, entMax, needed) <==>
            size >= needed || (OFFSET + size + ENTRY_SIZE * entMax <= SIZE_MAX / 2 && CanHold(2 * size, entMax, needed))
  {
    if size >= needed {
      assert Doubled(size, 0) >= needed;
    } else if CanHold(size, entMax, needed) {
      var times: nat :| Doubled(size, times) >= needed && (times > 0 ==> OFFSET + Doubled(size, times - 1) + ENTRY_SIZE * entMax <= SIZE_MAX / 2);
      assert times > 0 && Doubled(2 * size, times - 1) >= needed;
      DoubledGrows(size, times - 1);
      if times > 1 {
        assert Doubled(2 * size, times - 2) == Doubled(size, times - 1);
      }
    } else if OFFSET + size + ENTRY_SIZE * entMax <= SIZE_MAX / 2 && CanHold(2 * size, entMax, needed) {
      var times: nat :| Doubled(2 * size, times) >= needed
                        && (times > 0 ==> OFFSET + Doubled(2 * size, times - 1) + ENTRY_SIZE * entMax <= SIZE_MAX / 2);
      assert Doubled(size, times + 1) >= needed;
      assert times > 0 ==> Doubled(size, times) == Doubled(2 * size, times - 1);
    }
  }

  lemma {:induction false} DoubledGrows(size: nat, times: nat)
    ensures Doubled(size, times) >= size
    decreases times
  {
    if times > 0 {
      DoubledGrows(2 * size, times - 1);
    }
  }

  /** Strings that with the table take up no more than half the largest size can always be made room for. */
  lemma {:induction false} HalfIsEnough(size: nat, entMax: nat, needed: nat)
    requires size > 0 && OFFSET + needed + ENTRY_SIZE * entMax <= SIZE_MAX / 2
    ensures CanHold(size, entMax, needed)
    decreases needed - size
  {
    CanHoldStep(size, entMax, needed);
    if size < needed {
      HalfIsEnough(2 * size, entMax, needed);
    }
  }

  lemma EightBytes()
    ensures Power(8) == SIZE_MAX + 1
  {
    assert Power(4) == 0x1_0000_0000;
  }

  /** Strings written behind the others keep all tags. */
  lemma StringsWritten(m: string, base: nat, limit: nat, data: string, tags: seq<(string, string)>)
    requires Holds(m, base, limit, tags) && limit + |data| <= base && base + ENTRY_SIZE * |tags| <= |m|
    ensures Holds(Patch(m, limit, data), base, limit + |data|, tags)
  {
    hide Holds;
    var m1 := Patch(m, limit, data);
    assert m1[..limit] == m[..limit];
    assert m1[base..base + ENTRY_SIZE * |tags|] == m[base..base + ENTRY_SIZE * |tags|];
    AllKept(m, m1, base, base, tags, limit, limit + |data|);
  }

  /** An entry written in the table, or behind its end. */
  lemma EntryWritten(m: string, base: nat, limit: nat, tags: seq<(string, string)>, i: nat, k: nat, v: nat, tag: (string, string))
    requires Holds(m, base, limit, tags) && limit <= base && i <= |tags| && base + ENTRY_SIZE * (i + 1) <= |m|
    requires base + ENTRY_SIZE * |tags| <= |m| && k < Power(8) && v < Power(8)
    requires StringAt(m, k, tag.0, limit) && StringAt(m, v, tag.1, limit)
    ensures Holds(Patch(m, base + ENTRY_SIZE * i, Bytes(k, 8) + Bytes(v, 8)), base, limit, if i < |tags| then tags[i := tag] else tags + [tag])
  {
    hide StringAt, Bytes, TagAt, EntryAt, Power;
    var at := base + ENTRY_SIZE * i;
    var m1 := Patch(m, at, Bytes(k, 8) + Bytes(v, 8));
    NewEntry(m, at, k, v);
    assert m1[..limit] == m[..at][..limit] == m[..limit];
    var more := if i < |tags| then tags[i := tag] else tags + [tag];
    StringKept(m, m1, k, tag.0, limit, limit);
    StringKept(m, m1, v, tag.1, limit, limit);
    assert TagAt(m1, at, tag, limit) by { TagThere(m1, at, k, v, tag, limit); }
    forall j | 0 <= j < |more| ensures TagAt(m1, base + ENTRY_SIZE * j, more[j], limit) {
      if j != i {
        var a := base + ENTRY_SIZE * j;
        assert m1[a..a + ENTRY_SIZE] == m[a..a + ENTRY_SIZE] by { Elsewhere(m, at, Bytes(k, 8) + Bytes(v, 8), a); }
        TagKept(m, m1, a, a, tags[j], limit, limit);
      }
    }
  }

  lemma TagThere(m: string, at: nat, k: nat, v: nat, tag: (string, string), limit: nat)
    requires at + ENTRY_SIZE <= |m| && EntryAt(m, at) == (k, v) && StringAt(m, k, tag.0, limit) && StringAt(m, v, tag.1, limit)
    ensures TagAt(m, at, tag, limit)
  {
  }

  lemma Elsewhere(m: string, at: nat, data: string, a: nat)
    requires at + |data| <= |m| && |data| == ENTRY_SIZE && (a + ENTRY_SIZE <= at || (at + ENTRY_SIZE <= a && a + ENTRY_SIZE <= |m|))
    ensures Patch(m, at, data)[a..a + ENTRY_SIZE] == m[a..a + ENTRY_SIZE]
  {
  }

  /** A string block: the header, and behind it mem, with the strings first and then the table. */
  class Strb {
    var mem: array<char>
    var entUsed: nat
    var entMax: nat
    var strUsed: nat
    var strSize: nat
    ghost var tags: seq<(string, string)>

    ghost predicate Valid()
      reads this, mem
    {
      && Sizes()
      && Holds(mem[..], strSize, strUsed, tags) && DistinctKeys(tags)
    }

    ghost predicate Sizes()
      reads this
    {
      && mem.Length == strSize + ENTRY_SIZE * entMax && OFFSET + mem.Length <= SIZE_MAX
      && |tags| == entUsed <= entMax && strUsed <= strSize && 0 < strSize
    }

    constructor ()
      ensures Valid() && fresh(mem) && tags == [] && entMax == ENTRIES && strUsed == 0 && strSize == BLOCK
    {
      mem := new char[BLOCK + ENTRY_SIZE * ENTRIES](_ => '\0');
      entUsed, entMax, strUsed, strSize, tags := 0, ENTRIES, 0, BLOCK, [];
    }

    /** Start again with an empty block of the first size. */
    method Clear()
      requires Valid()
      modifies this
      ensures Valid() && fresh(mem) && tags == [] && entMax == ENTRIES && strUsed == 0 && strSize == BLOCK
    {
      entUsed, entMax := 0, ENTRIES;
      strSize, strUsed, tags := BLOCK, 0, [];
      mem := new char[strSize + ENTRY_SIZE * entMax](_ => '\0');
    }

    lemma SomeRoom()
      requires Valid()
      ensures strSize > 0
    {
    }

    method Store(off: nat, data: string)
      requires off + |data| <= mem.Length
      modifies mem
      ensures mem[..] == Patch(old(mem[..]), off, data)
    {
      ghost var was := mem[..];
      for k := 0 to |data|
        invariant mem[..] == was[..off] + data[..k] + was[off + k..]
      {
        assert data[..k + 1] == data[..k] + [data[k]];
        mem[off + k] := data[k];
      }
    }

    /** Whether the string at an offset is the key. */
    method Equals(off: nat, key: string, ghost s: string) returns (same: bool)
      requires StringAt(mem[..], off, s, strUsed) && NulFree(key)
      ensures same == (key == s)
    {
      var k := 0;
      while k < |key| && mem[off + k] == key[k]
        invariant k <= |key| && k <= |s| && key[..k] == s[..k]
      {
        assert k < |s| ==> mem[off + k] == mem[..][off..off + |s|][k];
        assert mem[off + |s|] == '\0' && key[k] != '\0';
        k := k + 1;
      }
      assert k < |s| ==> mem[off + k] == mem[..][off..off + |s|][k];
      same := k == |key| && mem[off + k] == '\0';
    }

    /** The place in the table of a key, or of the next new one. */
    method Address(key: string) returns (i: nat)
      requires Valid() && NulFree(key)
      ensures i == Index(tags, key)
    {
      hide StringAt, EntryAt, DistinctKeys;
      i := 0;
      while i < entUsed
        invariant i <= entUsed && forall j :: 0 <= j < i ==> tags[j].0 != key
      {
        assert TagAt(mem[..], strSize + ENTRY_SIZE * i, tags[i], strUsed);
        var (k, v) := EntryAt(mem[..], strSize + ENTRY_SIZE * i);
        var same := Equals(k, key, tags[i].0);
        if same {
          return;
        }
        i := i + 1;
      }
    }

    /** Make room for more strings: the block is doubled until they fit, and the table moves to its new end. */
    method Reserve(more: nat) returns (ok: bool)
      requires Valid()
      modifies this, mem
      ensures ok == CanHold(old(strSize), old(entMax), old(strUsed) + more)
      ensures ok ==> Valid() && tags == old(tags) && entMax == old(entMax) && strUsed == old(strUsed) && strSize - strUsed >= more
      ensures ok ==> mem == old(mem) || fresh(mem)
    {
      hide Holds, DistinctKeys, CanHold;
      var size := strSize;
      while size - strUsed < more
        invariant strUsed <= size && 0 < strSize <= size && OFFSET + size + ENTRY_SIZE * entMax <= SIZE_MAX
        invariant Valid() && mem == old(mem) && unchanged(this)
        invariant CanHold(size, entMax, strUsed + more) == CanHold(strSize, entMax, strUsed + more)
        decreases strUsed + more - size
      {
        CanHoldStep(size, entMax, strUsed + more);
        if OFFSET + size + ENTRY_SIZE * entMax > SIZE_MAX / 2 {
          return false;
        }
        size := size * 2;
      }
      CanHoldStep(size, entMax, strUsed + more);
      if size != strSize {
        MoveTable(size);
      }
      ok := true;
    }

    method MoveTable(size: nat)
      requires Valid() && strSize < size && OFFSET + size + ENTRY_SIZE * entMax <= SIZE_MAX
      modifies this
      ensures Valid() && fresh(mem) && tags == old(tags) && entMax == old(entMax) && strUsed == old(strUsed) && strSize == size
    {
      hide Holds, DistinctKeys;
      ghost var was := mem[..];
      var table := mem[strSize..];
      var wider := new char[size + ENTRY_SIZE * entMax];
      forall k | 0 <= k < mem.Length {
        wider[k] := mem[k];
      }
      assert wider[..mem.Length] == was;
      var oldSize := strSize;
      ghost var m0 := wider[..];
      mem, strSize := wider, size;
      Store(size, table);
      ghost var m1 := mem[..];
      Store(oldSize, seq(size - oldSize, _ => '\0'));
      TableMoved(was, m0, m1, mem[..], oldSize, size, strUsed, tags);
    }

    /** Add a tag; not ok is the fatal error that the block is too large. */
    method Add(key: string, value: string) returns (ok: bool)
      requires Valid() && NulFree(key) && NulFree(value) && (Lookup(tags, key) != None || |tags| < entMax)
      modifies this, mem
      ensures ok == CanHold(old(strSize), old(entMax), old(strUsed) + |key| + |value| + 2)
      ensures ok ==> Valid() && tags == Put(old(tags), key, value) && entMax == old(entMax)
      ensures ok ==> strUsed <= old(strUsed) + |key| + |value| + 2
      ensures ok ==> mem == old(mem) || fresh(mem)
    {
      hide Holds, DistinctKeys, CanHold;
      ok := Reserve(|key| + 1 + |value| + 1);
      if !ok {
        return;
      }
      EightBytes();
      var i := Address(key);
      PutKeys(tags, key, value);
      if i == entUsed {
        AddNew(key, value);
      } else {
        Change(i, value);
      }
    }

    /** A new key and its value go behind the strings, and an entry for them behind the table. */
    method AddNew(key: string, value: string)
      requires Valid() && NulFree(key) && NulFree(value) && entUsed < entMax && strUsed + |key| + |value| + 2 <= strSize
      requires DistinctKeys(tags + [(key, value)])
      modifies this`entUsed, this`tags, this`strUsed, mem
      ensures Valid() && tags == old(tags) + [(key, value)] && entMax == old(entMax) && mem == old(mem)
      ensures strUsed == old(strUsed) + |key| + |value| + 2
    {
      hide Holds, DistinctKeys, StringAt, Bytes, Patch;
      EightBytes();
      var k := Append(key);
      ghost var m1 := mem[..];
      var v := Append(value);
      StringKept(m1, mem[..], k, key, v, strUsed);
      EntryWritten(mem[..], strSize, strUsed, tags, entUsed, k, v, (key, value));
      Store(strSize + ENTRY_SIZE * entUsed, Bytes(k, 8) + Bytes(v, 8));
      entUsed := entUsed + 1;
      tags := tags + [(key, value)];
    }

    /** A string goes behind the others. */
    method Append(s: string) returns (off: nat)
      requires Valid() && NulFree(s) && strUsed + |s| + 1 <= strSize
      modifies this`strUsed, mem
      ensures Valid() && off == old(strUsed) && strUsed == off + |s| + 1 && StringAt(mem[..], off, s, strUsed)
      ensures mem[..][..off] == old(mem[..])[..off]
    {
      hide Holds, DistinctKeys, StringAt, Patch;
      off := strUsed;
      ghost var m := mem[..];
      Store(off, s + "\0");
      NewString(m, off, s);
      StringsWritten(m, strSize, off, s + "\0", tags);
      strUsed := strUsed + |s| + 1;
    }

    /** A new value of a key that is there goes behind the strings, and its entry points there. */
    method Change(i: nat, value: string)
      requires Valid() && NulFree(value) && i < entUsed && strUsed + |value| + 1 <= strSize
      requires DistinctKeys(tags[i := (tags[i].0, value)])
      modifies this`tags, this`strUsed, mem
      ensures Valid() && tags == old(tags)[i := (old(tags)[i].0, value)] && entMax == old(entMax) && mem == old(mem)
      ensures strUsed == old(strUsed) + |value| + 1
    {
      hide DistinctKeys, StringAt, Bytes, Patch, EntryAt;
      ghost var m0 := mem[..];
      EightBytes();
      assert TagAt(m0, strSize + ENTRY_SIZE * i, tags[i], strUsed);
      var (k, _) := EntryAt(mem[..], strSize + ENTRY_SIZE * i);
      assert StringAt(m0, k, tags[i].0, strUsed);
      var v := Append(value);
      StringKept(m0, mem[..], k, tags[i].0, v, strUsed);
      ghost var m1 := mem[..];
      EntryWritten(m1, strSize, strUsed, tags, i, k, v, (tags[i].0, value));
      Store(strSize + ENTRY_SIZE * i, Bytes(k, 8) + Bytes(v, 8));
      tags := tags[i := (tags[i].0, value)];
    }

    /** The value of a key. */
    method Find(key: string) returns (value: Option<string>)
      requires Valid() && NulFree(key)
      ensures value == Lookup(tags, key)
    {
      hide StringAt, EntryAt, DistinctKeys;
      var i := Address(key);
      if i == entUsed {
        return None;
      }
      assert TagAt(mem[..], strSize + ENTRY_SIZE * i, tags[i], strUsed);
      var (_, v) := EntryAt(mem[..], strSize + ENTRY_SIZE * i);
      var text := ReadString(v, tags[i].1);
      value := Some(text);
    }

    method ReadString(off: nat, ghost s: string) returns (text: string)
      requires StringAt(mem[..], off, s, strUsed)
      ensures text == s
    {
      text := "";
      while mem[off + |text|] != '\0'
        invariant |text| <= |s| && text == s[..|text|]
        decreases |s| - |text|
      {
        assert |text| < |s| ==> mem[off + |text|] == mem[..][off..off + |s|][|text|];
        text := text + [mem[off + |text|]];
      }
    }

    /** A block sent as its bytes holds the same tags where it is received. */
    method Receive() returns (copy: Strb)
      requires Valid()
      ensures fresh(copy) && fresh(copy.mem) && copy.Valid() && copy.tags == tags && copy.entMax == entMax
    {
      hide Holds, DistinctKeys;
      ghost var block := mem[..];
      copy := new Strb();
      copy.mem := new char[mem.Length];
      forall k | 0 <= k < mem.Length {
        copy.mem[k] := mem[k];
      }
      copy.entUsed, copy.entMax, copy.strUsed, copy.strSize := entUsed, entMax, strUsed, strSize;
      copy.tags := tags;
      assert copy.mem[..] == block && Holds(copy.mem[..], strSize, strUsed, tags);
      assert copy.Sizes();
    }
  }

  lemma TableMoved(was: string, m0: string, m1: string, m2: string, size: nat, size1: nat, limit: nat, tags: seq<(string, string)>)
    requires Holds(was, size, limit, tags) && limit <= size < size1 && size + ENTRY_SIZE * |tags| <= |was| <= |m0|
    requires |m0| == size1 + |was| - size && m0[..|was|] == was && m1 == Patch(m0, size1, was[size..])
    requires m2 == Patch(m1, size, seq(size1 - size, _ => '\0'))
    ensures Holds(m2, size1, limit, tags)
  {
    hide Holds;
    var n := ENTRY_SIZE * |tags|;
    forall k | 0 <= k < limit ensures m2[k] == was[k] {
      assert m2[k] == m1[k] == m0[k] == m0[..|was|][k];
    }
    assert m2[..limit] == was[..limit];
    assert m2[size1..] == m1[size1..] == was[size..];
    assert m2[size1..size1 + n] == m2[size1..][..n] && was[size..size + n] == was[size..][..n];
    AllKept(was, m2, size, size1, tags, limit, limit);
  }

  /** The bytes of all keys and values, with their NULs. */
  function TextBytes(adds: seq<(string, string)>): nat {
    if adds == [] then 0
    else
      var last := adds[|adds| - 1];
      TextBytes(adds[..|adds| - 1]) + |last.0| + |last.1| + 2
  }

  lemma {:induction false} BytesSoFar(adds: seq<(string, string)>, i: nat)
    requires i <= |adds|
    ensures TextBytes(adds[..i]) <= TextBytes(adds)
    ensures i > 0 ==> TextBytes(adds[..i]) == TextBytes(adds[..i - 1]) + |adds[i - 1].0| + |adds[i - 1].1| + 2
    decreases |adds|
  {
    assert i > 0 ==> adds[..i][..i - 1] == adds[..i - 1];
    if i < |adds| {
      BytesSoFar(adds[..|adds| - 1], i);
      assert adds[..|adds| - 1][..i] == adds[..i];
    } else {
      assert adds[..i] == adds;
    }
  }

  /**
   * Adds to an empty block, sent on to another process: there every key has the value last added for it. It works
   * for all adds that do not take up half the largest size.
   */
  method AddAndSend(adds: seq<(string, string)>, key: string) returns (value: Option<string>, ok: bool)
    requires |KeySet(adds)| <= ENTRIES && NulFree(key)
    requires forall a :: a in adds ==> NulFree(a.0) && NulFree(a.1)
    ensures OFFSET + TextBytes(adds) + ENTRY_SIZE * ENTRIES <= SIZE_MAX / 2 ==> ok
    ensures ok ==> value == Last(adds, key)
  {
    hide Strb.Valid, CanHold, TextBytes;
    var block := new Strb();
    assert adds[..0] == [] && TextBytes([]) == 0 by { NoBytes(); }
    for i := 0 to |adds|
      invariant block.Valid() && block.tags == PutAll(adds[..i]) && block.entMax == ENTRIES
      invariant fresh(block) && fresh(block.mem) && block.strUsed <= TextBytes(adds[..i]) && block.strSize > 0
    {
      BytesSoFar(adds, i + 1);
      assert adds[..i + 1][..i] == adds[..i];
      assert adds[i] in adds;
      AddsRefineMap(adds[..i], adds[i].0);
      KeysSoFar(adds, i);
      KeyThere(block.tags, adds[i].0);
      if OFFSET + TextBytes(adds) + ENTRY_SIZE * ENTRIES <= SIZE_MAX / 2 {
        HalfIsEnough(block.strSize, ENTRIES, block.strUsed + |adds[i].0| + |adds[i].1| + 2);
      }
      ok := block.Add(adds[i].0, adds[i].1);
      if !ok {
        return None, false;
      }
      block.SomeRoom();
    }
    assert adds[..|adds|] == adds;
    AddsRefineMap(adds, key);
    var copy := block.Receive();
    value := copy.Find(key);
    ok := true;
  }

  lemma NoBytes()
    ensures TextBytes([]) == 0
  {
  }

  lemma KeyThere(tags: seq<(string, string)>, key: string)
    ensures key in KeySet(tags) <==> Lookup(tags, key) != None
  {
    var i := Index(tags, key);
    if i < |tags| {
      assert tags[i].0 == key;
    }
  }

  /** A key that is not there yet leaves room for it among all keys. */
  lemma KeysSoFar(adds: seq<(string, string)>, i: nat)
    requires i < |adds|
    ensures adds[i].0 in KeySet(adds[..i]) || |KeySet(adds[..i])| < |KeySet(adds)|
  {
    var before := KeySet(adds[..i]);
    assert before <= KeySet(adds) by {
      forall k | k in before ensures k in KeySet(adds) {
        var j :| 0 <= j < i && adds[..i][j].0 == k;
        assert adds[j].0 == k;
      }
    }
    assert adds[i].0 in KeySet(adds);
    if adds[i].0 !in before {
      Smaller(before, KeySet(adds), adds[i].0);
    }
  }

  lemma Smaller(a: set<string>, b: set<string>, k: string)
    requires a <= b && k in b && k !in a
    ensures |a| < |b|
  {
    assert a + {k} <= b;
    NoLarger(a + {k}, b);
  }

  lemma NoLarger(a: set<string>, b: set<string>)
    requires a <= b
    ensures |a| <= |b|
  {
    assert b == a + (b - a);
  }
}
