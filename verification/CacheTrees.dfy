// The cache of a POP3 account as the client holds it: in a splay tree, loaded from its file and rid of the mails that
// are not on the server.

module CacheTrees {
  import opened Keys
  import opened SplayTree
  import opened MailText
  import opened CacheText
  import opened CacheFile

  /** Nodes in ascending order of keys are in the only such order. */
  lemma {:induction false} SortedSame(p: seq<Node>, q: seq<Node>)
    requires Sorted(p) && Sorted(q) && forall n :: n in p <==> n in q
    ensures p == q
    decreases |p|
  {
    assert q != [] ==> q[0] in q;
    if p != [] {
      assert p[0] in p;
      var i, j := |p| - 1, |q| - 1;
      assert p[i] in q && q[j] in p;
      LastIsGreatest(p, q[j]);
      LastIsGreatest(q, p[i]);
      BeforeLast(p);
      BeforeLast(q);
      forall n ensures n in p[..i] <==> n in q[..j] {
        assert n in p[..i] <==> n in p && n != p[i];
        assert n in q[..j] <==> n in q && n != q[j];
      }
      SortedSame(p[..i], q[..j]);
    }
  }

  lemma LastIsGreatest(s: seq<Node>, n: Node)
    requires Sorted(s) && n in s
    ensures n == s[|s| - 1] || (Less(n.key, s[|s| - 1].key) && !Less(s[|s| - 1].key, n.key))
  {
    CmpSwap(n.key, s[|s| - 1].key);
  }

  lemma BeforeLast(s: seq<Node>)
    requires Sorted(s) && s != []
    ensures Sorted(s[..|s| - 1]) && forall n :: n in s[..|s| - 1] <==> n in s && n != s[|s| - 1]
  {
    var i := |s| - 1;
    assert s == s[..i] + [s[i]];
    forall j | 0 <= j < i ensures s[j] != s[i] {
      CmpSwap(s[j].key, s[i].key);
    }
  }

  /** Taking one node out of an ordered sequence. */
  lemma WithoutOne(s: seq<Node>, k: nat)
    requires Sorted(s) && k < |s|
    ensures Sorted(s[..k] + s[k + 1..])
    ensures forall n :: n in s[..k] + s[k + 1..] <==> n in s && n.key != s[k].key
  {
    hide Less;
    var r := s[..k] + s[k + 1..];
    assert forall i :: 0 <= i < |r| ==> r[i] == if i < k then s[i] else s[i + 1];
    forall n ensures n in r <==> n in s && n.key != s[k].key {
      if n in s {
        var i :| 0 <= i < |s| && s[i] == n;
        if n.key == s[k].key {
          KeysDistinct(s, i, k);
        } else {
          assert r[if i < k then i else i - 1] == n;
        }
      }
      if n in r {
        var i :| 0 <= i < |r| && r[i] == n;
        if n.key == s[k].key {
          KeysDistinct(s, if i < k then i else i + 1, k);
        }
      }
    }
  }

  /** The order of a tree after a removal. */
  lemma OrderWithout(t: Splay, before: seq<Node>, k: nat)
    requires t.Valid() && Sorted(before) && k < |before|
    requires t.repr == set n | n in before && n.key != before[k].key
    ensures Inorder(t.tree) == before[..k] + before[k + 1..]
  {
    InTree(t);
    WithoutOne(before, k);
    SortedSame(Inorder(t.tree), before[..k] + before[k + 1..]);
  }

  /** What is left to look at, when some nodes have been. */
  ghost predicate Weeded(nodes: set<Node>, cur: seq<Node>, c: nat, server: set<string>) {
    && c <= |cur|
    && (forall j :: 0 <= j < c ==> cur[j].key in server)
    && (forall n :: n in cur ==> n in nodes)
    && (forall n :: n in nodes && n !in cur ==> n.key !in server)
  }

  lemma WeededAll(nodes: set<Node>, cur: seq<Node>, server: set<string>)
    requires Weeded(nodes, cur, |cur|, server)
    ensures forall n :: n in cur <==> n in nodes && n.key in server
  {
  }

  lemma WeededMore(nodes: set<Node>, cur: seq<Node>, c: nat, server: set<string>, found: bool)
    requires Weeded(nodes, cur, c, server) && Sorted(cur) && c < |cur| && found == (cur[c].key in server)
    ensures if found then Weeded(nodes, cur, c + 1, server) else Weeded(nodes, cur[..c] + cur[c + 1..], c, server)
  {
    hide Sorted;
    if !found {
      var less := cur[..c] + cur[c + 1..];
      assert cur == cur[..c] + [cur[c]] + cur[c + 1..];
      assert forall n :: n in cur <==> n in less || n == cur[c];
    }
  }

  /** Two trees of their own. */
  ghost predicate TwoTrees(cache: Splay, server: Splay)
    reads cache, server, Nodes(cache.tree), Nodes(server.tree)
  {
    && cache.Valid() && server.Valid() && cache != server && cache.repr !! server.repr
    && cache.repr == Nodes(cache.tree) && server.repr == Nodes(server.tree)
  }

  /** Whether a mail is on the server. */
  method OnServer(cache: Splay, server: Splay, key: string) returns (found: bool)
    requires TwoTrees(cache, server)
    modifies server, server.repr`left, server.repr`right
    ensures TwoTrees(cache, server) && server.repr == old(server.repr) && found == (key in Ids(server))
    ensures cache.repr == old(cache.repr) && Inorder(cache.tree) == old(Inorder(cache.tree))
  {
    hide Splay.Valid, Models, Inorder, Sorted, Less, Cmp;
    var node := server.Find(key);
    InTree(server);
    FoundKey(server, key, node);
    found := node != null;
  }

  /** The walk passes one mail, and then that mail is removed if it is not on the server. */
  method WeedOne(cache: Splay, server: Splay, aux: Node, ghost c: nat) returns (next: Node?, kept: bool)
    requires TwoTrees(cache, server) && c < |Inorder(cache.tree)| && Inorder(cache.tree)[c] == aux
    modifies cache, server, cache.repr`left, cache.repr`right, server.repr`left, server.repr`right
    ensures TwoTrees(cache, server) && server.repr == old(server.repr) && cache.repr <= old(cache.repr)
    ensures kept == (aux.key in Ids(server))
    ensures var cur := old(Inorder(cache.tree));
            && Inorder(cache.tree) == (if kept then cur else cur[..c] + cur[c + 1..])
            && next == (if c + 1 < |cur| then cur[c + 1] else null)
  {
    hide Splay.Valid, Models, Inorder, Sorted, Less, Cmp, Ids;
    ghost var cur := Inorder(cache.tree);
    next := cache.NextAfter(aux, c);
    InTree(cache);
    kept := OnServer(cache, server, aux.key);
    if !kept {
      ValidSorted(cache);
      InTree(cache);
      ghost var before := cache.repr;
      assert before == (set n | n in cur);
      var _ := cache.Remove(aux.key);
      assert cache.repr == (set n | n in cur && n.key != cur[c].key);
      OrderWithout(cache, cur, c);
      InTree(cache);
    }
  }

  /** Walk the cache, and remove each mail that is not on the server once the walk is past it. */
  method WeedCache(cache: Splay, server: Splay)
    requires TwoTrees(cache, server)
    modifies cache, server, cache.repr`left, cache.repr`right, server.repr`left, server.repr`right
    ensures TwoTrees(cache, server) && server.repr == old(server.repr)
    ensures cache.repr == set n | n in old(cache.repr) && n.key in old(Ids(server))
    ensures Ids(cache) == old(Ids(cache)) * old(Ids(server))
  {
    hide Models, Inorder, Sorted, Weeded, Less, Cmp, TwoTrees;
    ghost var nodes, keys := cache.repr, Ids(server);
    BothValid(cache, server);
    var aux := LeastOf(cache, server);
    ghost var cur, c := Inorder(cache.tree), 0;
    BothValid(cache, server);
    InTree(cache);
    NothingWeeded(nodes, cur, keys);
    while aux != null
      invariant TwoTrees(cache, server) && server.repr == old(server.repr) && cache.repr <= nodes
      invariant cur == Inorder(cache.tree) && c <= |cur| && Weeded(nodes, cur, c, keys)
      invariant if c < |cur| then aux == cur[c] else aux == null
      decreases |cur| - c
    {
      BothValid(cache, server);
      ValidSorted(cache);
      var kept;
      ghost var key := aux.key;
      aux, kept := WeedOne(cache, server, aux, c);
      WeededMore(nodes, cur, c, keys, kept);
      if kept {
        c := c + 1;
      } else {
        cur := cur[..c] + cur[c + 1..];
      }
    }
    BothValid(cache, server);
    InTree(cache);
    WeededAll(nodes, cur, keys);
  }

  method LeastOf(cache: Splay, server: Splay) returns (min: Node?)
    requires TwoTrees(cache, server)
    modifies cache, cache.repr`left, cache.repr`right
    ensures TwoTrees(cache, server) && cache.repr == old(cache.repr) && Inorder(cache.tree) == old(Inorder(cache.tree))
    ensures min == if Inorder(cache.tree) == [] then null else Inorder(cache.tree)[0]
  {
    hide Splay.Valid, Models, Inorder, Sorted, Less, Cmp;
    min := cache.Min();
    InTree(cache);
  }

  lemma BothValid(cache: Splay, server: Splay)
    requires TwoTrees(cache, server)
    ensures cache.Valid() && server.Valid()
  {
  }

  lemma NothingWeeded(nodes: set<Node>, cur: seq<Node>, server: set<string>)
    requires forall n :: n in nodes <==> n in cur
    ensures Weeded(nodes, cur, 0, server)
  {
  }

  lemma ValidSorted(t: Splay)
    requires t.Valid()
    ensures Sorted(Inorder(t.tree))
  {
  }

  lemma FoundKey(t: Splay, key: string, found: Node?)
    requires if t.Has(key) then found != null && found in t.repr && found.key == key else found == null
    ensures found != null <==> key in Ids(t)
  {
  }

  /**
   * Load a cache file and weed it: what is left is the ids of the file that are on the server. A file saved from
   * savable ids has just those ids.
   */
  method LoadAndWeed(text: string, server: Splay) returns (cache: Splay, ok: bool)
    requires server.Valid() && server.repr == Nodes(server.tree)
    modifies server, server.repr`left, server.repr`right
    ensures fresh(cache) && ok == Loaded(text).1
    ensures ok ==> TwoTrees(cache, server) && Ids(cache) == (set u | u in Loaded(text).0) * old(Ids(server))
  {
    hide Splay.Valid, Models, Inorder, Sorted, Loaded;
    cache := new Splay();
    EmptyTree(cache);
    assert cache.repr == {};
    InTree(server);
    ok := Load(cache, text);
    InTree(cache);
    InTree(server);
    if ok {
      WeedCache(cache, server);
    }
  }

  /** What a run leaves in the cache file is what the next run starts with, as far as it is on the server. */
  lemma SavedThenWeeded(uids: seq<string>, server: set<string>)
    requires forall u :: u in uids ==> Savable(u) && NulFree(u)
    ensures Loaded(Saved(uids)).1 && (set u | u in Loaded(Saved(uids)).0) * server == (set u | u in uids) * server
  {
    SavedLoads(uids);
  }
}
