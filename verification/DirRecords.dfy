/** Directories on disk (dir.c): a packed list of records in the bytes of a file.  Each operation on the bytes is one on
    the list. */
module DirRecords {
  import opened VolumeModel

  const INUM_SIZE := 8          // sizeof(my_ino_t)
  const NAME_OFFSET := 9        // of name in struct myfs_dirent, after inum and name_len

  type Name = seq<byte>

  datatype Option<T> = None | Some(value: T)

  datatype Rec = Rec(inum: nat, name: Name)

  /** Names are C strings that name_len can count. */
  predicate NameOk(name: Name) {
    |name| <= 255 && forall i :: 0 <= i < |name| ==> name[i] != 0
  }

  predicate RecOk(r: Rec) {
    NameOk(r.name) && r.inum < Power256(INUM_SIZE)
  }

  /** MDE_SIZE: up to the byte after the terminator, rounded up to a multiple of 8. */
  function RecSize(len: nat): (s: nat)
    ensures s >= NAME_OFFSET + len + 1 && s % 8 == 0 && s < NAME_OFFSET + len + 9
  {
    (NAME_OFFSET + len + 1 + 7) / 8 * 8
  }

  /** The bytes of a record, with whatever the rounding takes in. */
  function Layout(r: Rec, junk: seq<byte>): (b: seq<byte>)
    requires RecOk(r) && |junk| == RecSize(|r.name|) - (NAME_OFFSET + |r.name| + 1)
    ensures |b| == RecSize(|r.name|)
  {
    Encode(r.inum, INUM_SIZE) + [|r.name|] + r.name + [0] + junk
  }

  /** Do the bytes begin with record r? */
  predicate Starts(b: seq<byte>, r: Rec) {
    && RecOk(r) && |b| >= RecSize(|r.name|)
    && Decode(b[..INUM_SIZE]) == r.inum && b[INUM_SIZE] == |r.name|
    && b[NAME_OFFSET..NAME_OFFSET + |r.name|] == r.name && b[NAME_OFFSET + |r.name|] == 0
  }

  /** Are the bytes just these records, one after the other? */
  predicate Parses(b: seq<byte>, recs: seq<Rec>) {
    if recs == [] then b == []
    else Starts(b, recs[0]) && Parses(b[RecSize(|recs[0].name|)..], recs[1..])
  }

  lemma LayoutStarts(r: Rec, junk: seq<byte>)
    requires RecOk(r) && |junk| == RecSize(|r.name|) - (NAME_OFFSET + |r.name| + 1)
    ensures Parses(Layout(r, junk), [r])
  {
    var b := Layout(r, junk);
    assert b[..INUM_SIZE] == Encode(r.inum, INUM_SIZE);
    DecodeEncode(r.inum, INUM_SIZE);
    assert b[NAME_OFFSET..NAME_OFFSET + |r.name|] == r.name;
    hide Encode, Decode, Power256;
    assert Starts(b, r);
    assert b[RecSize(|r.name|)..] == [] && [r][1..] == [];
    assert Parses([], []);
  }

  lemma StartsJoin(b: seq<byte>, c: seq<byte>, r: Rec)
    requires Starts(b, r)
    ensures Starts(b + c, r) && (b + c)[RecSize(|r.name|)..] == b[RecSize(|r.name|)..] + c
  {
    hide Decode, Power256;
    assert (b + c)[..INUM_SIZE] == b[..INUM_SIZE];
    assert (b + c)[NAME_OFFSET..NAME_OFFSET + |r.name|] == b[NAME_OFFSET..NAME_OFFSET + |r.name|];
  }

  lemma {:induction false} ParsesJoin(b: seq<byte>, recs: seq<Rec>, c: seq<byte>, more: seq<Rec>)
    requires Parses(b, recs) && Parses(c, more)
    ensures Parses(b + c, recs + more)
  {
    if recs == [] {
      assert b + c == c && recs + more == more;
    } else {
      StartsJoin(b, c, recs[0]);
      ParsesJoin(b[RecSize(|recs[0].name|)..], recs[1..], c, more);
      assert (recs + more)[1..] == recs[1..] + more;
    }
  }

  /** Where record k begins. */
  function Offset(recs: seq<Rec>, k: nat): nat
    requires k <= |recs|
  {
    if k == 0 then 0 else RecSize(|recs[0].name|) + Offset(recs[1..], k - 1)
  }

  lemma {:induction false} ParsesFrom(b: seq<byte>, recs: seq<Rec>, k: nat)
    requires Parses(b, recs) && k <= |recs|
    ensures Offset(recs, k) <= |b| && Offset(recs, k) % 8 == 0 && Parses(b[Offset(recs, k)..], recs[k..])
  {
    hide Starts;
    if k == 0 {
      assert b[0..] == b && recs[0..] == recs;
    } else {
      var s := RecSize(|recs[0].name|);
      StartsLong(b, recs[0]);
      ParsesFrom(b[s..], recs[1..], k - 1);
      var o := Offset(recs[1..], k - 1);
      assert b[s..][o..] == b[s + o..] && recs[1..][k - 1..] == recs[k..];
    }
  }

  lemma {:induction false} ParsesTo(b: seq<byte>, recs: seq<Rec>, k: nat)
    requires Parses(b, recs) && k <= |recs|
    ensures Offset(recs, k) <= |b| && Parses(b[..Offset(recs, k)], recs[..k])
  {
    hide Starts, RecSize;
    if k == 0 {
      assert b[..0] == [] && recs[..0] == [];
    } else {
      var s := RecSize(|recs[0].name|);
      StartsLong(b, recs[0]);
      ParsesTo(b[s..], recs[1..], k - 1);
      var o := Offset(recs[1..], k - 1);
      assert b[..s + o][s..] == b[s..][..o] && recs[..k][1..] == recs[1..][..k - 1];
      StartsPrefix(b, s + o, recs[0]);
    }
  }

  lemma {:induction false} OffsetNext(recs: seq<Rec>, k: nat)
    requires k < |recs|
    ensures Offset(recs, k + 1) == Offset(recs, k) + RecSize(|recs[k].name|)
  {
    hide RecSize;
    if k == 0 {
      assert Offset(recs[1..], 0) == 0;
    } else {
      OffsetNext(recs[1..], k - 1);
    }
  }

  /** The walk from record to record meets each, and lands on the end. */
  lemma ParsesAt(b: seq<byte>, recs: seq<Rec>, k: nat)
    requires Parses(b, recs) && k <= |recs|
    ensures Offset(recs, k) <= |b| && Offset(recs, k) % 8 == 0
    ensures Parses(b[..Offset(recs, k)], recs[..k]) && Parses(b[Offset(recs, k)..], recs[k..])
    ensures k < |recs| ==> Starts(b[Offset(recs, k)..], recs[k])
    ensures k < |recs| ==> Offset(recs, k + 1) == Offset(recs, k) + RecSize(|recs[k].name|) <= |b|
    ensures k == |recs| <==> Offset(recs, k) == |b|
  {
    hide Starts, RecSize, Offset;
    ParsesFrom(b, recs, k);
    ParsesTo(b, recs, k);
    ParsesEmpty(b[Offset(recs, k)..], recs[k..]);
    if k < |recs| {
      StartsLong(b[Offset(recs, k)..], recs[k]);
      OffsetNext(recs, k);
    }
  }

  lemma StartsLong(b: seq<byte>, r: Rec)
    requires Starts(b, r)
    ensures RecSize(|r.name|) <= |b|
  {
  }

  lemma StartsPrefix(b: seq<byte>, n: nat, r: Rec)
    requires Starts(b, r) && RecSize(|r.name|) <= n <= |b|
    ensures Starts(b[..n], r)
  {
    hide Decode, Power256;
    assert b[..n][..INUM_SIZE] == b[..INUM_SIZE];
    assert b[..n][NAME_OFFSET..NAME_OFFSET + |r.name|] == b[NAME_OFFSET..NAME_OFFSET + |r.name|];
  }

  /** The bytes determine the records. */
  lemma {:induction false} ParsesUnique(b: seq<byte>, recs: seq<Rec>, recs': seq<Rec>)
    requires Parses(b, recs) && Parses(b, recs')
    ensures recs == recs'
  {
    hide Starts;
    ParsesEmpty(b, recs);
    ParsesEmpty(b, recs');
    if b != [] {
      StartsLong(b, recs[0]);
      StartsUnique(b, recs[0], recs'[0]);
      ParsesUnique(b[RecSize(|recs[0].name|)..], recs[1..], recs'[1..]);
      assert recs == [recs[0]] + recs[1..] && recs' == [recs'[0]] + recs'[1..];
    }
  }

  lemma ParsesEmpty(b: seq<byte>, recs: seq<Rec>)
    requires Parses(b, recs)
    ensures b == [] <==> recs == []
  {
  }

  lemma StartsUnique(b: seq<byte>, r: Rec, r': Rec)
    requires Starts(b, r) && Starts(b, r')
    ensures r == r'
  {
    hide Decode, Power256;
  }

  // ---- the list

  /** The place of the first record of that name, or the length of the list. */
  function First(recs: seq<Rec>, name: Name): (k: nat)
    ensures k <= |recs| && (k < |recs| ==> recs[k].name == name)
    ensures forall j :: 0 <= j < k ==> recs[j].name != name
  {
    if recs == [] || recs[0].name == name then 0 else 1 + First(recs[1..], name)
  }

  const DOT: Name := [46]
  const DOTDOT: Name := [46, 46]

  /** Every directory begins with '.' and '..'. */
  predicate Dotted(recs: seq<Rec>) {
    |recs| >= 2 && recs[0].name == DOT && recs[1].name == DOTDOT
  }

  /** What a lookup finds. */
  function Find(recs: seq<Rec>, name: Name): Option<nat> {
    var k := First(recs, name);
    if k < |recs| then Some(recs[k].inum) else None
  }

  ghost predicate NamesOnce(recs: seq<Rec>) {
    forall i, j :: 0 <= i < j < |recs| ==> recs[i].name != recs[j].name
  }

  lemma FindStep(recs: seq<Rec>, name: Name)
    ensures recs == [] ==> Find(recs, name) == None
    ensures recs != [] ==> Find(recs, name) == if recs[0].name == name then Some(recs[0].inum) else Find(recs[1..], name)
  {
  }

  lemma {:induction false} FirstIs(recs: seq<Rec>, k: nat, name: Name)
    requires k <= |recs| && (k < |recs| ==> recs[k].name == name) && forall j :: 0 <= j < k ==> recs[j].name != name
    ensures First(recs, name) == k
  {
    if k > 0 {
      FirstIs(recs[1..], k - 1, name);
    }
  }

  /** After an insert, a name that was not there is found with its number, and every other as before. */
  lemma {:induction false} InsertThenFind(recs: seq<Rec>, r: Rec, name: Name)
    ensures Find(recs + [r], name) ==
            if Find(recs, name).Some? then Find(recs, name) else if name == r.name then Some(r.inum) else None
  {
    hide Find, First;
    FindStep(recs + [r], name);
    FindStep(recs, name);
    FindStep([], name);
    if recs == [] {
      assert (recs + [r])[1..] == [];
    } else {
      InsertThenFind(recs[1..], r, name);
      assert (recs + [r])[1..] == recs[1..] + [r];
    }
  }

  /** Names stay unique if, as mkdir and create do, the caller looks first. */
  lemma InsertOnce(recs: seq<Rec>, r: Rec)
    requires NamesOnce(recs) && Find(recs, r.name) == None
    ensures NamesOnce(recs + [r])
  {
    assert forall i :: 0 <= i < |recs| ==> recs[i].name != r.name;
  }

  /** After a delete, no name but the deleted one is found differently. */
  lemma DeleteThenFind(recs: seq<Rec>, gone: Name, name: Name)
    requires First(recs, gone) < |recs| && name != gone
    ensures Find(recs[..First(recs, gone)] + recs[First(recs, gone) + 1..], name) == Find(recs, name)
  {
    CutFind(recs, First(recs, gone), name);
  }

  /** If names are unique, they stay so, and the deleted one is gone. */
  lemma DeleteOnce(recs: seq<Rec>, k: nat)
    requires NamesOnce(recs) && k < |recs|
    ensures NamesOnce(recs[..k] + recs[k + 1..]) && Find(recs[..k] + recs[k + 1..], recs[k].name) == None
  {
    var rest := recs[..k] + recs[k + 1..];
    hide First;
    forall i | 0 <= i < |rest| ensures rest[i] == recs[if i < k then i else i + 1] && rest[i].name != recs[k].name {
    }
    NotFound(rest, recs[k].name);
  }

  lemma NotFound(recs: seq<Rec>, name: Name)
    requires forall i :: 0 <= i < |recs| ==> recs[i].name != name
    ensures Find(recs, name) == None
  {
  }

  lemma {:induction false} CutFind(recs: seq<Rec>, k: nat, name: Name)
    requires k < |recs| && recs[k].name != name
    ensures Find(recs[..k] + recs[k + 1..], name) == Find(recs, name)
  {
    hide Find, First;
    var rest := recs[..k] + recs[k + 1..];
    FindStep(recs, name);
    FindStep(rest, name);
    if k == 0 {
      assert rest == recs[1..];
    } else {
      CutFind(recs[1..], k - 1, name);
      assert rest[1..] == recs[1..][..k - 1] + recs[1..][k..];
      assert rest[0] == recs[0];
    }
  }

  // ---- the code

  class Directory {
    var stream: seq<byte>             // the file's data; its length is data.size
    var contents: Option<seq<byte>>   // a copy in memory, once read
    ghost var recs: seq<Rec>

    ghost predicate Valid()
      reads this
    {
      Parses(stream, recs) && Dotted(recs) && (contents.Some? ==> contents.value == stream)
    }

    /** make_dir: the bytes of '.' and '..', written to a new file. */
    constructor (self: nat, parent: nat, junk0: seq<byte>, junk1: seq<byte>)
      requires self < Power256(INUM_SIZE) && parent < Power256(INUM_SIZE)
      requires |junk0| == RecSize(1) - (NAME_OFFSET + 2) && |junk1| == RecSize(2) - (NAME_OFFSET + 3)
      ensures Valid() && recs == [Rec(self, DOT), Rec(parent, DOTDOT)]
    {
      LayoutStarts(Rec(self, DOT), junk0);
      LayoutStarts(Rec(parent, DOTDOT), junk1);
      ParsesJoin(Layout(Rec(self, DOT), junk0), [Rec(self, DOT)], Layout(Rec(parent, DOTDOT), junk1), [Rec(parent, DOTDOT)]);
      stream := Layout(Rec(self, DOT), junk0) + Layout(Rec(parent, DOTDOT), junk1);
      contents := None;
      recs := [Rec(self, DOT), Rec(parent, DOTDOT)];
    }

    /** get_dir_contents. */
    method GetContents() returns (b: seq<byte>)
      requires Valid()
      modifies this`contents
      ensures Valid() && contents == Some(b) && b == stream
    {
      if contents == None {
        contents := Some(stream);
      }
      b := contents.value;
    }

    /** strcmp(mde->name, name) == 0, byte by byte up to a terminator. */
    static method SameName(b: seq<byte>, at: nat, name: Name, ghost r: Rec) returns (same: bool)
      requires at <= |b| && Starts(b[at..], r) && NameOk(name)
      ensures same <==> r.name == name
    {
      NameBytes(b, at, r);
      hide Starts, Decode, Power256;
      var i := 0;
      while i < |name| && b[at + NAME_OFFSET + i] == name[i]
        invariant i <= |name| && i <= |r.name| && forall j :: 0 <= j < i ==> r.name[j] == name[j]
      {
        i := i + 1;
      }
      same := i == |name| && b[at + NAME_OFFSET + i] == 0;
      if same {
        assert |r.name| == i && r.name == name;
      }
    }

    static lemma NameBytes(b: seq<byte>, at: nat, r: Rec)
      requires at <= |b| && Starts(b[at..], r)
      ensures at + NAME_OFFSET + |r.name| < |b| && b[at + NAME_OFFSET + |r.name|] == 0
      ensures forall j :: 0 <= j < |r.name| ==> b[at + NAME_OFFSET + j] == r.name[j] != 0
      ensures b[at + INUM_SIZE] == |r.name| && Decode(b[at..at + INUM_SIZE]) == r.inum && RecOk(r)
    {
      hide Decode, Power256;
      assert b[at..][..INUM_SIZE] == b[at..at + INUM_SIZE];
      forall j | 0 <= j < |r.name| ensures b[at + NAME_OFFSET + j] == r.name[j] {
        assert b[at..][NAME_OFFSET..NAME_OFFSET + |r.name|][j] == r.name[j];
      }
    }

    /** The loop of dir_lookup and dir_delete over the records. */
    static method Search(b: seq<byte>, name: Name, ghost recs: seq<Rec>) returns (at: nat, ghost k: nat)
      requires Parses(b, recs) && NameOk(name)
      ensures k == First(recs, name) && at == Offset(recs, k) <= |b|
      ensures at < |b| <==> k < |recs|
    {
      hide Parses, Starts, Offset, First, RecSize;
      at, k := 0, 0;
      ParsesAt(b, recs, 0);
      NoOffset(recs);
      while at < |b|
        invariant k <= |recs| && at == Offset(recs, k) <= |b| && forall j :: 0 <= j < k ==> recs[j].name != name
        invariant at < |b| <==> k < |recs|
        decreases |recs| - k
      {
        ParsesAt(b, recs, k);
        var same := SameName(b, at, name, recs[k]);
        if same {
          break;
        }
        NameBytes(b, at, recs[k]);
        at := at + RecSize(b[at + INUM_SIZE]);
        k := k + 1;
        ParsesAt(b, recs, k);
      }
      FirstIs(recs, k, name);
    }

    static lemma NoOffset(recs: seq<Rec>)
      ensures Offset(recs, 0) == 0
    {
    }

    method Lookup(name: Name) returns (r: Option<nat>)
      requires Valid() && NameOk(name)
      modifies this`contents
      ensures Valid() && stream == old(stream) && recs == old(recs)
      ensures r == Find(recs, name)
    {
      var b := GetContents();
      ghost var k;
      var at;
      at, k := Search(b, name, recs);
      if at == |b| {
        return None;
      }
      ParsesAt(b, recs, k);
      NameBytes(b, at, recs[k]);
      r := Some(Decode(b[at..at + INUM_SIZE]));
    }

    /** A record is put at the end. */
    method Insert(name: Name, inum: nat, junk: seq<byte>)
      requires Valid() && NameOk(name) && inum < Power256(INUM_SIZE)
      requires |junk| == RecSize(|name|) - (NAME_OFFSET + |name| + 1)
      modifies this
      ensures Valid() && recs == old(recs) + [Rec(inum, name)]
    {
      var b := GetContents();
      LayoutStarts(Rec(inum, name), junk);
      ParsesJoin(b, recs, Layout(Rec(inum, name), junk), [Rec(inum, name)]);
      hide Parses, Layout;
      contents := Some(b + Layout(Rec(inum, name), junk));
      stream := contents.value;
      recs := recs + [Rec(inum, name)];
    }

    /** The first record of that name goes and those after it move up; '.' and '..' stay. */
    method Delete(name: Name) returns (ok: bool)
      requires Valid() && NameOk(name)
      modifies this
      ensures Valid()
      ensures ok <==> name != DOT && name != DOTDOT && First(old(recs), name) < |old(recs)|
      ensures ok ==> recs == old(recs)[..First(old(recs), name)] + old(recs)[First(old(recs), name) + 1..]
      ensures !ok ==> recs == old(recs) && stream == old(stream)
    {
      hide Parses;
      if name == DOT || name == DOTDOT {
        return false;
      }
      var b := GetContents();
      ghost var k;
      var at;
      at, k := Search(b, name, recs);
      if at == |b| {
        return false;
      }
      Cut(b, at, k);
      ok := true;
    }

    /** Record k, at byte at, goes. */
    method Cut(b: seq<byte>, at: nat, ghost k: nat)
      requires Valid() && contents == Some(b) && 2 <= k < |recs| && at == Offset(recs, k)
      modifies this
      ensures Valid() && recs == old(recs)[..k] + old(recs)[k + 1..]
    {
      hide Parses, Starts, Offset, RecSize;
      ParsesAt(b, recs, k);
      NameBytes(b, at, recs[k]);
      ParsesAt(b, recs, k + 1);
      var next := at + RecSize(b[at + INUM_SIZE]);
      ParsesJoin(b[..at], recs[..k], b[next..], recs[k + 1..]);
      contents := Some(b[..at] + b[next..]);
      stream := contents.value;
      recs := recs[..k] + recs[k + 1..];
    }
  }
}
