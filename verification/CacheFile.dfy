// The cache file of a POP3 account: the unique ids, each behind its length.

module CacheText {
  import opened MailText

  predicate IsSpace(c: char) {
    c == ' ' || '\t' <= c <= '\r'
  }

  predicate IsDigit(c: char) {
    '0' <= c <= '9'
  }

  // ---------------------------------------------------------------- numbers

  function Decimal(n: nat): (r: string)
    ensures r != "" && forall i :: 0 <= i < |r| ==> IsDigit(r[i])
  {
    var digit := [(n % 10) as char + '0'];
    if n < 10 then digit else Decimal(n / 10) + digit
  }

  function Value(digits: string): nat {
    if digits == "" then 0
    else
      var last := digits[|digits| - 1];
      10 * Value(digits[..|digits| - 1]) + (if IsDigit(last) then (last - '0') as nat else 0)
  }

  lemma {:induction false} ValueOfDecimal(n: nat)
    ensures Value(Decimal(n)) == n
  {
    var digit := [(n % 10) as char + '0'];
    assert (digit[0] - '0') as nat == n % 10;
    if n < 10 {
      assert digit[..0] == "";
    } else {
      ValueOfDecimal(n / 10);
      assert (Decimal(n / 10) + digit)[..|Decimal(n / 10)|] == Decimal(n / 10);
    }
  }

  // ---------------------------------------------------------------- scanf

  function SkipSpace(s: string): (r: string)
    ensures |r| <= |s| && (r != "" ==> !IsSpace(r[0]))
  {
    if s != "" && IsSpace(s[0]) then SkipSpace(s[1..]) else s
  }

  function Digits(s: string): (r: nat)
    ensures r <= |s|
  {
    if s != "" && IsDigit(s[0]) then 1 + Digits(s[1..]) else 0
  }

  lemma {:induction false} DigitsOf(digits: string, rest: string)
    requires forall i :: 0 <= i < |digits| ==> IsDigit(digits[i])
    requires rest == "" || !IsDigit(rest[0])
    ensures Digits(digits + rest) == |digits|
  {
    if digits == "" {
      assert digits + rest == rest;
    } else {
      assert (digits + rest)[1..] == digits[1..] + rest;
      DigitsOf(digits[1..], rest);
    }
  }

  datatype Entry = End | Bad | Entry(uid: string, rest: string)

  /** One turn of the loading loop: a number, and as many bytes behind the space after it. */
  function ReadEntry(s: string): (r: Entry)
    ensures r.Entry? ==> |r.rest| < |s|
  {
    var s1 := SkipSpace(s);
    var d := Digits(s1);
    if s1 == "" then End
    else if d == 0 then Bad
    else
      var n := Value(s1[..d]);
      var s2 := SkipSpace(s1[d..]);
      if n == 0 || |s2| < n then Bad else Entry(CString(s2[..n]), s2[n..])
  }

  /** The ids loaded, and whether the file was read to its end. */
  function Loaded(s: string): (seq<string>, bool)
    decreases |s|
  {
    match ReadEntry(s)
    case End => ([], true)
    case Bad => ([], false)
    case Entry(uid, rest) => var (uids, ok) := Loaded(rest); ([uid] + uids, ok)
  }

  // ---------------------------------------------------------------- there and back

  function Saved(uids: seq<string>): string {
    if uids == [] then "" else Decimal(|uids[0]|) + " " + uids[0] + "\n" + Saved(uids[1..])
  }

  /** An id that can be saved: it is not empty and does not start with a space. */
  predicate Savable(uid: string) {
    uid != "" && !IsSpace(uid[0])
  }

  lemma NewlineSkipped(s: string)
    ensures ReadEntry("\n" + s) == ReadEntry(s) && Loaded("\n" + s) == Loaded(s)
  {
    assert ("\n" + s)[1..] == s;
    assert SkipSpace("\n" + s) == SkipSpace(s);
  }

  /** A number and a space in front of some text. */
  lemma ReadNumber(n: nat, text: string)
    ensures var s2 := SkipSpace(text);
            ReadEntry(Decimal(n) + (" " + text)) == if n == 0 || |s2| < n then Bad else Entry(CString(s2[..n]), s2[n..])
  {
    hide Decimal, CString;
    var number := Decimal(n);
    var s := number + (" " + text);
    assert !IsSpace(number[0]) && s[0] == number[0] && SkipSpace(s) == s;
    DigitsOf(number, " " + text);
    assert s[..|number|] == number && s[|number|..] == " " + text;
    ValueOfDecimal(n);
    assert (" " + text)[1..] == text;
  }

  lemma EntryBack(uid: string, rest: string)
    requires NulFree(uid)
    ensures var e := ReadEntry(Decimal(|uid|) + " " + uid + "\n" + rest);
            && (Savable(uid) ==> e == Entry(uid, "\n" + rest))
            && (!Savable(uid) ==> e.Bad? || (e.Entry? && e.uid != uid))
  {
    hide ReadEntry, Decimal, CString, SkipSpace, IsSpace;
    var text := uid + "\n" + rest;
    EntryParts(Decimal(|uid|), uid, rest);
    ReadNumber(|uid|, text);
    if Savable(uid) {
      NothingToSkip(text);
      CutText(uid, rest);
    }
  }

  lemma EntryParts(number: string, uid: string, rest: string)
    ensures number + " " + uid + "\n" + rest == number + (" " + (uid + "\n" + rest))
  {
  }

  lemma NothingToSkip(text: string)
    requires text != "" && !IsSpace(text[0])
    ensures SkipSpace(text) == text
  {
  }

  lemma CutText(uid: string, rest: string)
    ensures var text := uid + "\n" + rest; text[..|uid|] == uid && text[|uid|..] == "\n" + rest
  {
  }

  /** A saved cache is loaded as it was exactly if all its ids are savable. */
  lemma {:induction false} SavedLoads(uids: seq<string>)
    requires forall u :: u in uids ==> NulFree(u)
    ensures Loaded(Saved(uids)) == (uids, true) <==> forall u :: u in uids ==> Savable(u)
    decreases |uids|
  {
    hide ReadEntry, Decimal, NulFree, Savable;
    if uids == [] {
      assert Loaded("") == ([], true) by { NothingLoads(); }
    } else {
      var uid, rest := uids[0], Saved(uids[1..]);
      assert uid in uids;
      EntryBack(uid, rest);
      SavedLoads(uids[1..]);
      NewlineSkipped(rest);
      assert forall u :: u in uids <==> u == uid || u in uids[1..];
      var (more, ok) := Loaded(rest);
      FirstOf(uid, more, uids);
    }
  }

  lemma NothingLoads()
    ensures Loaded("") == ([], true)
  {
  }

  lemma FirstOf(uid: string, more: seq<string>, uids: seq<string>)
    requires uids != []
    ensures [uid] + more == uids <==> uid == uids[0] && more == uids[1..]
  {
    assert ([uid] + more)[1..] == more;
  }

  /** An entry that is cut short is bad. */
  lemma EntryCut(uid: string, k: nat)
    requires Savable(uid) && 0 < k < |Decimal(|uid|)| + 1 + |uid|
    ensures ReadEntry((Decimal(|uid|) + (" " + uid))[..k]) == Bad
  {
    hide Decimal, Value, CString;
    var number := Decimal(|uid|);
    var text := (number + (" " + uid))[..k];
    if k <= |number| {
      assert text == number[..k];
      assert SkipSpace(text) == text;
      DigitsOf(text, "");
      assert text + "" == text && text[..k] == text && text[k..] == "";
    } else {
      var m := k - |number| - 1;
      assert text == number + (" " + uid[..m]);
      ReadNumber(|uid|, uid[..m]);
      assert SkipSpace(uid[..m]) == uid[..m];
    }
  }

  /**
   * A cache file that has been cut short loads the ids whose entries are whole, and only those. It is found to be bad
   * unless it ends with an entry, or just lacks the newline behind one.
   */
  lemma {:induction false} CutShort(uids: seq<string>, k: nat)
    requires (forall u :: u in uids ==> NulFree(u) && Savable(u)) && k <= |Saved(uids)|
    ensures var (loaded, ok) := Loaded(Saved(uids)[..k]);
            loaded <= uids && (ok <==> k == |Saved(loaded)| || k + 1 == |Saved(loaded)|)
    decreases |uids|
  {
    hide ReadEntry, Decimal, NulFree, Savable;
    if uids == [] {
      NothingLoads();
    } else {
      var uid, rest := uids[0], Saved(uids[1..]);
      assert uid in uids && forall u :: u in uids[1..] ==> u in uids;
      var bare := Decimal(|uid|) + " " + uid;
      assert bare == Decimal(|uid|) + (" " + uid);
      assert Saved(uids) == bare + "\n" + rest;
      if k > |bare| {
        var left := k - |bare| - 1;
        assert Saved(uids)[..k] == bare + "\n" + rest[..left];
        EntryBack(uid, rest[..left]);
        NewlineSkipped(rest[..left]);
        CutShort(uids[1..], left);
        var (more, ok) := Loaded(rest[..left]);
        assert ([uid] + more)[1..] == more;
      } else if k == |bare| {
        assert Saved(uids)[..k] == bare;
        WholeEntry(uid);
        NothingLoads();
        assert [uid][1..] == [] && [uid] + [] == [uid];
      } else if k > 0 {
        assert Saved(uids)[..k] == bare[..k];
        EntryCut(uid, k);
      } else {
        assert Saved(uids)[..k] == "";
        NothingLoads();
      }
    }
  }

  lemma WholeEntry(uid: string)
    requires NulFree(uid) && Savable(uid)
    ensures ReadEntry(Decimal(|uid|) + " " + uid) == Entry(uid, "")
  {
    hide Decimal, Value, CString, ReadEntry, SkipSpace;
    assert Decimal(|uid|) + " " + uid == Decimal(|uid|) + (" " + uid);
    ReadNumber(|uid|, uid);
    NothingToSkip(uid);
    assert uid[..|uid|] == uid && uid[|uid|..] == "";
  }

  /** An id that starts with a space does not come back. */
  lemma SpaceLost()
    ensures Loaded(Saved([" a"])) != ([" a"], true)
  {
    assert !Savable([" a"][0]);
    SavedLoads([" a"]);
  }

  /** Every id that is a unique id of the protocol is savable: it is made of the characters from 0x21 to 0x7e. */
  lemma UniqueIdsSavable(uid: string)
    requires uid != "" && forall i :: 0 <= i < |uid| ==> 0x21 as char <= uid[i] <= 0x7e as char
    ensures Savable(uid) && NulFree(uid)
  {
  }
}

module CacheFile {
  import opened MailText
  import opened CacheText
  import opened SplayTree

  /** The ids in a tree. */
  ghost function Ids(t: Splay): set<string>
    reads t
  {
    set n | n in t.repr :: n.key
  }

  function NodeKeys(nodes: seq<Node>): seq<string> {
    if nodes == [] then [] else [nodes[0].key] + NodeKeys(nodes[1..])
  }

  lemma {:induction false} KeysIn(nodes: seq<Node>, key: string)
    ensures key in NodeKeys(nodes) <==> exists n :: n in nodes && n.key == key
  {
    if nodes != [] {
      KeysIn(nodes[1..], key);
      assert forall n :: n in nodes <==> n == nodes[0] || n in nodes[1..];
    }
  }

  lemma {:induction false} SavedMore(uids: seq<string>, uid: string)
    ensures Saved(uids + [uid]) == Saved(uids) + Decimal(|uid|) + " " + uid + "\n"
  {
    hide Decimal;
    if uids == [] {
      assert uids + [uid] == [uid] && [uid][1..] == [];
    } else {
      assert (uids + [uid])[1..] == uids[1..] + [uid];
      SavedMore(uids[1..], uid);
    }
  }

  lemma KeysMore(nodes: seq<Node>, k: nat)
    requires k < |nodes|
    ensures NodeKeys(nodes[..k + 1]) == NodeKeys(nodes[..k]) + [nodes[k].key]
  {
    KeysAppend(nodes[..k], nodes[k]);
    assert nodes[..k + 1] == nodes[..k] + [nodes[k]];
  }

  lemma {:induction false} KeysAppend(nodes: seq<Node>, n: Node)
    ensures NodeKeys(nodes + [n]) == NodeKeys(nodes) + [n.key]
  {
    if nodes == [] {
      assert nodes + [n] == [n] && [n][1..] == [];
    } else {
      assert (nodes + [n])[1..] == nodes[1..] + [n];
      KeysAppend(nodes[1..], n);
    }
  }

  method TextOf(nodes: seq<Node>) returns (text: string)
    ensures text == Saved(NodeKeys(nodes))
  {
    hide Saved, Decimal, NodeKeys;
    text := "";
    assert nodes[..0] == [];
    EmptySaved();
    for i := 0 to |nodes|
      invariant text == Saved(NodeKeys(nodes[..i]))
    {
      KeysMore(nodes, i);
      SavedMore(NodeKeys(nodes[..i]), nodes[i].key);
      text := text + Decimal(|nodes[i].key|) + " " + nodes[i].key + "\n";
    }
    assert nodes[..|nodes|] == nodes;
  }

  /** The ids of a tree are written in their order. */
  method Save(t: Splay) returns (text: string)
    requires t.Valid()
    modifies t, t.repr`left, t.repr`right
    ensures t.Valid() && t.repr == old(t.repr)
    ensures text == Saved(NodeKeys(Inorder(t.tree))) && forall k :: k in NodeKeys(Inorder(t.tree)) <==> k in Ids(t)
  {
    hide Saved, Splay.Valid, NodeKeys, Models, Sorted, Inorder;
    var nodes := t.Foreach();
    InTree(t);
    forall k ensures k in NodeKeys(nodes) <==> k in Ids(t) {
      KeysIn(nodes, k);
    }
    text := TextOf(nodes);
  }

  lemma EmptySaved()
    ensures Saved(NodeKeys([])) == ""
  {
  }

  lemma InTree(t: Splay)
    requires t.Valid()
    ensures t.repr == Nodes(t.tree) == (set n | n in Inorder(t.tree))
    ensures forall n :: n in t.repr <==> n in Inorder(t.tree)
  {
    InorderSet(t.tree);
  }

  lemma {:induction false} InorderSet(t: Tree)
    ensures Nodes(t) == set n | n in Inorder(t)
  {
    if t.Bin? {
      InorderSet(t.l);
      InorderSet(t.r);
      var l, r := Inorder(t.l), Inorder(t.r);
      assert forall n :: n in l + [t.n] + r <==> n in l || n == t.n || n in r;
    }
  }

  method PassSpace(text: string, from: nat) returns (pos: nat)
    requires from <= |text|
    ensures from <= pos <= |text| && text[pos..] == SkipSpace(text[from..])
  {
    pos := from;
    while pos < |text| && IsSpace(text[pos])
      invariant from <= pos <= |text| && SkipSpace(text[pos..]) == SkipSpace(text[from..])
    {
      assert text[pos..][1..] == text[pos + 1..];
      pos := pos + 1;
    }
  }

  method ScanNumber(text: string, from: nat) returns (pos: nat, n: nat)
    requires from <= |text|
    ensures pos == from + Digits(text[from..]) <= |text| && n == Value(text[from..pos])
  {
    pos, n := from, 0;
    while pos < |text| && IsDigit(text[pos])
      invariant from <= pos <= |text| && Digits(text[from..]) == pos - from + Digits(text[pos..]) && n == Value(text[from..pos])
    {
      assert text[pos..][1..] == text[pos + 1..];
      assert text[from..pos + 1][..pos - from] == text[from..pos];
      n := 10 * n + (text[pos] - '0') as nat;
      pos := pos + 1;
    }
  }

  /** One entry of the file. */
  method ScanEntry(text: string, from: nat) returns (e: Entry, pos: nat)
    requires from <= |text|
    ensures e == ReadEntry(text[from..]) && from <= pos <= |text| && (e.Entry? ==> e.rest == text[pos..] && pos > from)
  {
    hide SkipSpace, Digits, Value, CString, IsSpace, IsDigit;
    var start := PassSpace(text, from);
    pos := start;
    if start == |text| {
      return End, pos;
    }
    var n;
    pos, n := ScanNumber(text, start);
    assert text[start..][..pos - start] == text[start..pos] && text[start..][pos - start..] == text[pos..];
    if pos == start {
      return Bad, pos;
    }
    var uidAt := PassSpace(text, pos);
    if n == 0 || |text| - uidAt < n {
      return Bad, pos;
    }
    assert text[uidAt..][..n] == text[uidAt..uidAt + n] && text[uidAt..][n..] == text[uidAt + n..];
    pos := uidAt + n;
    e := Entry(CString(text[uidAt..pos]), text[pos..]);
  }

  /** The entries of a file are put into a tree, up to a bad one. */
  method Load(t: Splay, text: string) returns (ok: bool)
    requires t.Valid()
    modifies t, t.repr`left, t.repr`right
    ensures t.Valid() && fresh(t.repr - old(t.repr))
    ensures ok == Loaded(text).1 && Ids(t) == old(Ids(t)) + (set u | u in Loaded(text).0)
  {
    hide ReadEntry, Splay.Valid, Models, Sorted, Inorder, Loaded;
    var pos := 0;
    assert text[0..] == text;
    ghost var done := [];
    assert [] + Loaded(text).0 == Loaded(text).0;
    while true
      invariant pos <= |text| && t.Valid() && fresh(t.repr - old(t.repr))
      invariant Loaded(text).0 == done + Loaded(text[pos..]).0 && Loaded(text).1 == Loaded(text[pos..]).1
      invariant Ids(t) == old(Ids(t)) + (set u | u in done)
      decreases |text| - pos
    {
      InTree(t);
      LoadedStep(text[pos..], done);
      var e, next := ScanEntry(text, pos);
      if !e.Entry? {
        return e == End;
      }
      var node := new Node(e.uid);
      ghost var before := Ids(t);
      var existing := t.Insert(node);
      assert Ids(t) == before + {e.uid};
      done := done + [e.uid];
      pos := next;
    }
  }

  lemma LoadedStep(s: string, done: seq<string>)
    ensures var e := ReadEntry(s);
            if e.Entry? then done + Loaded(s).0 == done + [e.uid] + Loaded(e.rest).0 && Loaded(s).1 == Loaded(e.rest).1
            else done + Loaded(s).0 == done && Loaded(s).1 == e.End?
  {
  }

  /** A cache of unique ids, saved and loaded into an empty tree, has the same ids. */
  method SaveAndLoad(t: Splay) returns (r: Splay, ok: bool)
    requires t.Valid() && forall u :: u in Ids(t) ==> NulFree(u)
    modifies t, t.repr`left, t.repr`right
    ensures r.Valid() && fresh(r) && Ids(t) == old(Ids(t))
    ensures (forall u :: u in Ids(t) ==> Savable(u)) ==> ok && Ids(r) == Ids(t)
  {
    hide Savable, Splay.Valid, Models, Sorted, Inorder, NulFree, Saved, Loaded, NodeKeys;
    var text := Save(t);
    SavedLoads(NodeKeys(Inorder(t.tree)));
    r := new Splay();
    EmptyTree(r);
    ok := Load(r, text);
  }

  lemma EmptyTree(t: Splay)
    requires t.Valid() && t.tree == Leaf
    ensures t.repr == {} && t.repr == Nodes(t.tree)
  {
  }
}
