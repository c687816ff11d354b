/**
 Archiving an album: zip its directories into the music root, verify the zip, and only then delete them, over a
 disk on which any operation may fail and any zip entry may come out short or damaged.
 */
module Archive {
  import opened Common

  type Bytes = seq<bv8>
  type Path = seq<string>

  /** A zip entry: its bytes, and whether they pass the entry's own CRC. */
  datatype Entry = Entry(data: Bytes, sound: bool)

  /** A regular file has its bytes, and the entries a zip reader finds in them. */
  datatype Node =
    | File(data: Bytes, entries: map<Path, Entry>)
    | Folder
    | Other // a symlink, a socket: nothing an archive takes

  type Tree = map<Path, Node>

  ghost predicate BelowAny(p: Path, dirs: seq<Path>) {
    exists k :: 0 <= k < |dirs| && Below(p, dirs[k])
  }

  // ----- the disk -----

  /** A disk, every state it has been in, one for each change, and which of its operations the system fails. */
  class Disk {
    const fails: nat -> bool
    var nodes: Tree
    var operations: nat
    ghost var states: seq<Tree>

    /** Nothing ever fails. */
    ghost predicate Reliable() {
      forall n :: !fails(n)
    }

    /** The system failed the last operation. */
    ghost predicate JustFailed()
      reads this`operations
    {
      operations > 0 && fails(operations - 1)
    }

    ghost predicate Valid()
      reads this
    {
      states != [] && states[|states| - 1] == nodes
    }

    constructor (tree: Tree, fails: nat -> bool)
      ensures Valid() && nodes == tree && states == [tree] && this.fails == fails && operations == 0
    {
      this.fails := fails;
      nodes, states, operations := tree, [tree], 0;
    }

    /** Whether the next operation succeeds. */
    method Attempt() returns (ok: bool)
      modifies this`operations
      ensures ok == !fails(old(operations)) && operations == old(operations) + 1
    {
      ok := !fails(operations);
      operations := operations + 1;
    }

    method Put(p: Path, n: Node)
      requires Valid()
      modifies this`nodes, this`states
      ensures Valid() && nodes == old(nodes)[p := n] && states == old(states) + [nodes]
    {
      nodes := nodes[p := n];
      states := states + [nodes];
    }

    method Delete(p: Path)
      requires Valid()
      modifies this`nodes, this`states
      ensures Valid() && nodes == old(nodes) - {p} && states == old(states) + [nodes]
    {
      nodes := nodes - {p};
      states := states + [nodes];
    }
  }

  // ----- naming the archive -----

  /** The `n`th name tried: the plain one, then "(2)", "(3)" and on. */
  function Candidate(root: Path, stem: string, n: nat): Path
    requires n >= 1
  {
    root + [if n == 1 then stem + ".zip" else stem + " (" + Decimal(n) + ").zip"]
  }

  lemma CandidatesDiffer(root: Path, stem: string, m: nat, n: nat)
    requires 1 <= m < n
    ensures Candidate(root, stem, m) != Candidate(root, stem, n)
  {
    var a, b := Candidate(root, stem, m), Candidate(root, stem, n);
    var x, y := a[|root|], b[|root|];
    if m == 1 {
      assert y[|stem|] == ' ' && x[|stem|] == '.';
    } else {
      var k := |stem| + 2;
      assert x[k..|x| - 5] == Decimal(m) && y[k..|y| - 5] == Decimal(n);
      DecimalReadsBack(m);
      DecimalReadsBack(n);
    }
  }

  ghost function Tried(root: Path, stem: string, n: nat): set<Path> {
    if n <= 1 then {} else Tried(root, stem, n - 1) + {Candidate(root, stem, n - 1)}
  }

  lemma {:induction false} NotTried(root: Path, stem: string, n: nat, m: nat)
    requires 1 <= n <= m
    ensures Candidate(root, stem, m) !in Tried(root, stem, n)
  {
    if n > 1 {
      NotTried(root, stem, n - 1, m);
      CandidatesDiffer(root, stem, n - 1, m);
    }
  }

  lemma OneLess<T>(a: set<T>, b: set<T>, x: T)
    requires x in a && x !in b
    ensures |a - (b + {x})| < |a - b|
  {
    assert a - b == (a - (b + {x})) + {x};
  }

  /** Each name tried before the `n`th is taken. */
  ghost predicate AllTaken(tree: Tree, root: Path, stem: string, n: nat) {
    n <= 1 || (AllTaken(tree, root, stem, n - 1) && Candidate(root, stem, n - 1) in tree)
  }

  lemma {:induction false} FirstWasTaken(tree: Tree, root: Path, stem: string, n: nat)
    requires n >= 1 && AllTaken(tree, root, stem, n)
    ensures n == 1 || root + [stem + ".zip"] in tree
  {
    if n > 2 {
      FirstWasTaken(tree, root, stem, n - 1);
    }
  }

  /** A name for the archive that nothing has yet: no earlier archive can be overwritten. */
  method UniquePath(disk: Disk, root: Path, stem: string) returns (path: Path)
    ensures path !in disk.nodes
    ensures |path| == |root| + 1 && root <= path
    ensures root + [stem + ".zip"] !in disk.nodes ==> path == root + [stem + ".zip"]
    ensures exists n: nat :: n >= 1 && path == Candidate(root, stem, n) && AllTaken(disk.nodes, root, stem, n)
  {
    var n := 1;
    path := Candidate(root, stem, n);
    while path in disk.nodes
      invariant n >= 1 && path == Candidate(root, stem, n) && AllTaken(disk.nodes, root, stem, n)
      decreases |disk.nodes.Keys - Tried(root, stem, n)|
    {
      NotTried(root, stem, n, n);
      OneLess(disk.nodes.Keys, Tried(root, stem, n), path);
      n := n + 1;
      path := Candidate(root, stem, n);
    }
    FirstWasTaken(disk.nodes, root, stem, n);
  }

  // ----- collecting -----

  /** One file to archive: where it is, its name under the music root, and its size. */
  datatype Member = Member(path: Path, name: Path, size: nat)

  ghost predicate MemberOf(m: Member, tree: Tree, root: Path) {
    m.path in tree && tree[m.path].File? && m.path == root + m.name && m.size == |tree[m.path].data|
  }

  ghost predicate Listed(members: seq<Member>, p: Path) {
    exists k :: 0 <= k < |members| && members[k].path == p
  }

  ghost predicate Members(members: seq<Member>, tree: Tree, root: Path, dirs: seq<Path>) {
    && (forall k :: 0 <= k < |members| ==> MemberOf(members[k], tree, root) && BelowAny(members[k].path, dirs))
    && (forall i, j :: 0 <= i < j < |members| ==> members[i].name != members[j].name)
  }

  /** The regular files under the directories, each once, under the name that restores it in place. */
  ghost predicate Collected(members: seq<Member>, tree: Tree, root: Path, dirs: seq<Path>) {
    && Members(members, tree, root, dirs)
    && (forall p :: p in tree && tree[p].File? && BelowAny(p, dirs) ==> Listed(members, p))
  }

  ghost predicate SeenIs(seen: set<Path>, members: seq<Member>) {
    forall n :: n in seen <==> exists k :: 0 <= k < |members| && members[k].name == n
  }

  lemma ListedStays(members: seq<Member>, m: Member, p: Path)
    requires Listed(members, p)
    ensures Listed(members + [m], p)
  {
    var k :| 0 <= k < |members| && members[k].path == p;
    assert (members + [m])[k].path == p;
  }

  lemma SeenGrows(seen: set<Path>, members: seq<Member>, m: Member)
    requires SeenIs(seen, members)
    ensures SeenIs(seen + {m.name}, members + [m])
  {
    var more := members + [m];
    assert more[|members|] == m;
    forall n | n in seen
      ensures exists k :: 0 <= k < |more| && more[k].name == n
    {
      var k :| 0 <= k < |members| && members[k].name == n;
      assert more[k].name == n;
    }
  }

  lemma AlreadySeen(members: seq<Member>, tree: Tree, root: Path, dirs: seq<Path>, seen: set<Path>, p: Path)
    requires Members(members, tree, root, dirs) && SeenIs(seen, members)
    requires root <= p && p[|root|..] in seen
    ensures Listed(members, p)
  {
    var k :| 0 <= k < |members| && members[k].name == p[|root|..];
    assert members[k].path == root + p[|root|..] == p;
  }

  /** One file, unless a nested directory listed twice has given it already. */
  method CollectFile(tree: Tree, root: Path, ghost dirs: seq<Path>, p: Path, members: seq<Member>, seen: set<Path>)
    returns (out: seq<Member>, outSeen: set<Path>)
    requires Members(members, tree, root, dirs) && SeenIs(seen, members)
    requires p in tree && root <= p && BelowAny(p, dirs)
    ensures Members(out, tree, root, dirs) && SeenIs(outSeen, out)
    ensures forall q :: Listed(members, q) ==> Listed(out, q)
    ensures tree[p].File? ==> Listed(out, p)
  {
    out, outSeen := members, seen;
    if !tree[p].File? {
      return;
    }
    var name := p[|root|..];
    if name in seen {
      AlreadySeen(members, tree, root, dirs, seen, p);
      return;
    }
    var m := Member(p, name, |tree[p].data|);
    out, outSeen := members + [m], seen + {name};
    SeenGrows(seen, members, m);
    forall q | Listed(members, q) ensures Listed(out, q) {
      ListedStays(members, m, q);
    }
    assert out[|members|].path == p;
  }

  method CollectDir(tree: Tree, root: Path, dirs: seq<Path>, i: nat, members: seq<Member>, seen: set<Path>)
    returns (out: seq<Member>, outSeen: set<Path>)
    requires i < |dirs| && root <= dirs[i]
    requires Members(members, tree, root, dirs) && SeenIs(seen, members)
    ensures Members(out, tree, root, dirs) && SeenIs(outSeen, out)
    ensures forall q :: Listed(members, q) ==> Listed(out, q)
    ensures forall p :: p in tree && tree[p].File? && Below(p, dirs[i]) ==> Listed(out, p)
  {
    out, outSeen := members, seen;
    var under := set p | p in tree && Below(p, dirs[i]);
    var todo := under;
    while todo != {}
      invariant todo <= under
      invariant Members(out, tree, root, dirs) && SeenIs(outSeen, out)
      invariant forall q :: Listed(members, q) ==> Listed(out, q)
      invariant forall p :: p in under && p !in todo && tree[p].File? ==> Listed(out, p)
    {
      var p :| p in todo;
      todo := todo - {p};
      out, outSeen := CollectFile(tree, root, dirs, p, out, outSeen);
    }
  }

  /** Every file under the directories, or nothing when one of them is no directory inside the music root. */
  method Collect(tree: Tree, root: Path, dirs: seq<Path>) returns (members: Option<seq<Member>>)
    ensures members.Some? ==> Collected(members.value, tree, root, dirs)
    ensures members.Some? <==> forall k :: 0 <= k < |dirs| ==> root <= dirs[k] && dirs[k] in tree && tree[dirs[k]].Folder?
  {
    var out: seq<Member>, seen: set<Path> := [], {};
    for i := 0 to |dirs|
      invariant forall k :: 0 <= k < i ==> root <= dirs[k] && dirs[k] in tree && tree[dirs[k]].Folder?
      invariant Members(out, tree, root, dirs) && SeenIs(seen, out)
      invariant forall k, p :: 0 <= k < i && p in tree && tree[p].File? && Below(p, dirs[k]) ==> Listed(out, p)
    {
      if !(root <= dirs[i]) || dirs[i] !in tree || !tree[dirs[i]].Folder? {
        return None;
      }
      out, seen := CollectDir(tree, root, dirs, i, out, seen);
    }
    return Some(out);
  }

  // ----- what stays safe -----

  /** Nothing that was there has changed, and nothing is new but the archive. */
  ghost predicate Untouched(was: Tree, now: Tree, zip: Path) {
    && (forall p :: p in was ==> p in now && now[p] == was[p])
    && (forall p :: p in now ==> p in was || p == zip)
  }

  /** The archive holds file `p`, byte for byte and undamaged, under the name that restores it in place. */
  ghost predicate InArchive(was: Tree, now: Tree, root: Path, zip: Path, p: Path)
    requires p in was && was[p].File?
  {
    && zip in now && now[zip].File? && root <= p && p[|root|..] in now[zip].entries
    && now[zip].entries[p[|root|..]] == Entry(was[p].data, true)
  }

  /** Each file that was there is there still, or in the archive; and nothing outside the directories has changed. */
  ghost predicate Safe(was: Tree, now: Tree, root: Path, dirs: seq<Path>, zip: Path) {
    && (forall p :: p in was && was[p].File? ==> (p in now && now[p] == was[p]) || InArchive(was, now, root, zip, p))
    && (forall p :: p in was && !was[p].Folder? && !BelowAny(p, dirs) && p !in dirs ==> p in now && now[p] == was[p])
  }

  ghost predicate AllSafe(was: Tree, states: seq<Tree>, from: nat, root: Path, dirs: seq<Path>, zip: Path) {
    forall k :: from <= k < |states| ==> Safe(was, states[k], root, dirs, zip)
  }

  ghost predicate AllUntouched(was: Tree, states: seq<Tree>, from: nat, zip: Path) {
    forall k :: from <= k < |states| ==> Untouched(was, states[k], zip)
  }

  // ----- writing and verifying -----

  /** How an entry can come out: exact, or short, or failing its CRC. */
  predicate Plausible(e: Entry, data: Bytes) {
    e.sound ==> e.data == data || |e.data| < |data|
  }

  ghost predicate Written(entries: map<Path, Entry>, members: seq<Member>, tree: Tree) {
    forall n :: n in entries ==> exists k :: 0 <= k < |members| && WrittenFrom(entries, members[k], n, tree)
  }

  ghost predicate WrittenFrom(entries: map<Path, Entry>, m: Member, n: Path, tree: Tree) {
    && n in entries && m.name == n
    && m.path in tree && tree[m.path].File? && Plausible(entries[n], tree[m.path].data)
  }

  /** Every member is in the archive, byte for byte. */
  ghost predicate AllWritten(entries: map<Path, Entry>, members: seq<Member>, n: nat, tree: Tree)
    requires n <= |members|
  {
    forall k :: 0 <= k < n ==> WrittenExactly(entries, members[k], tree)
  }

  ghost predicate WrittenExactly(entries: map<Path, Entry>, m: Member, tree: Tree) {
    m.path in tree && tree[m.path].File? && m.name in entries && entries[m.name] == Entry(tree[m.path].data, true)
  }

  /** How one member's entry comes out: exactly, or where the system fails short or damaged. */
  method EntryFor(disk: Disk, data: Bytes) returns (e: Entry)
    modifies disk`operations
    ensures Plausible(e, data) && (disk.Reliable() ==> e == Entry(data, true))
  {
    var exact := disk.Attempt();
    e := Entry(data, true);
    if !exact {
      assert Plausible(e, data);
      e :| Plausible(e, data);
    }
  }

  lemma OneMoreWritten(entries: map<Path, Entry>, members: seq<Member>, i: nat, e: Entry, tree: Tree)
    requires i < |members| && members[i].path in tree && tree[members[i].path].File? && Plausible(e, tree[members[i].path].data)
    requires Written(entries, members, tree)
    requires forall i, j :: 0 <= i < j < |members| ==> members[i].name != members[j].name
    ensures Written(entries[members[i].name := e], members, tree)
    ensures AllWritten(entries, members, i, tree) && e == Entry(tree[members[i].path].data, true)
            ==> AllWritten(entries[members[i].name := e], members, i + 1, tree)
  {
    var more := entries[members[i].name := e];
    forall n | n in more ensures exists k :: 0 <= k < |members| && WrittenFrom(more, members[k], n, tree) {
      if n == members[i].name {
        assert WrittenFrom(more, members[i], n, tree);
      } else {
        var k :| 0 <= k < |members| && WrittenFrom(entries, members[k], n, tree);
        assert WrittenFrom(more, members[k], n, tree);
      }
    }
    if AllWritten(entries, members, i, tree) && e == Entry(tree[members[i].path].data, true) {
      forall k | 0 <= k < i + 1 ensures WrittenExactly(more, members[k], tree) {
        assert k < i ==> WrittenExactly(entries, members[k], tree) && members[k].name != members[i].name;
      }
    }
  }

  /** What holds of the archive while it is being written. */
  ghost predicate Writing(was: Tree, now: Tree, zip: Path, members: seq<Member>) {
    Untouched(was, now, zip) && zip in now && now[zip].File? && Written(now[zip].entries, members, was)
  }

  /** One member, into the archive as it is. */
  method WriteMember(disk: Disk, ghost was: Tree, ghost from: nat, zip: Path, members: seq<Member>, i: nat) returns (ok: bool)
    requires disk.Valid() && i < |members| && zip !in was && from <= |disk.states|
    requires Writing(was, disk.nodes, zip, members) && AllUntouched(was, disk.states, from, zip)
    requires members[i].path in was && was[members[i].path].File?
    requires forall i, j :: 0 <= i < j < |members| ==> members[i].name != members[j].name
    modifies disk
    ensures disk.Valid() && |old(disk.states)| <= |disk.states|
    ensures Writing(was, disk.nodes, zip, members) && AllUntouched(was, disk.states, from, zip)
    ensures disk.Reliable() ==> ok && (AllWritten(old(disk.nodes)[zip].entries, members, i, was)
                                       ==> AllWritten(disk.nodes[zip].entries, members, i + 1, was))
  {
    ok := disk.Attempt();
    if !ok {
      return;
    }
    var kept := disk.Attempt();
    if !kept {
      return;
    }
    assert disk.nodes[members[i].path] == was[members[i].path];
    var e := EntryFor(disk, disk.nodes[members[i].path].data);
    var bytes: Bytes := *;
    OneMoreWritten(disk.nodes[zip].entries, members, i, e, was);
    disk.Put(zip, File(bytes, disk.nodes[zip].entries[members[i].name := e]));
  }

  /** Writes the members one by one; any write may fail, be lost, come out short or be damaged. */
  method Write(disk: Disk, zip: Path, members: seq<Member>) returns (ok: bool)
    requires disk.Valid() && zip !in disk.nodes
    requires forall k :: 0 <= k < |members| ==> members[k].path in disk.nodes && disk.nodes[members[k].path].File?
    requires forall i, j :: 0 <= i < j < |members| ==> members[i].name != members[j].name
    modifies disk
    ensures disk.Valid() && |old(disk.states)| <= |disk.states|
    ensures AllUntouched(old(disk.nodes), disk.states, |old(disk.states)|, zip) && Untouched(old(disk.nodes), disk.nodes, zip)
    ensures ok ==> Writing(old(disk.nodes), disk.nodes, zip, members)
    ensures disk.Reliable() ==> ok && AllWritten(disk.nodes[zip].entries, members, |members|, old(disk.nodes))
  {
    ghost var was, from := disk.nodes, |disk.states|;
    var created := disk.Attempt();
    if !created {
      return false;
    }
    var bytes: Bytes := *;
    disk.Put(zip, File(bytes, map[]));
    for i := 0 to |members|
      invariant disk.Valid() && from <= |disk.states|
      invariant Writing(was, disk.nodes, zip, members) && AllUntouched(was, disk.states, from, zip)
      invariant disk.Reliable() ==> AllWritten(disk.nodes[zip].entries, members, i, was)
    {
      var written := WriteMember(disk, was, from, zip, members, i);
      if !written {
        return false;
      }
    }
    return true;
  }

  ghost predicate Verified(entries: map<Path, Entry>, members: seq<Member>) {
    && (forall n :: n in entries ==> entries[n].sound)
    && (forall k :: 0 <= k < |members| ==> members[k].name in entries && |entries[members[k].name].data| == members[k].size)
  }

  /** Reopens the archive: every entry's CRC, then that none is missing, then that none is the wrong size. */
  method Verify(disk: Disk, zip: Path, members: seq<Member>) returns (ok: bool)
    modifies disk`operations
    ensures ok ==> zip in disk.nodes && disk.nodes[zip].File? && Verified(disk.nodes[zip].entries, members)
    ensures disk.Reliable() && zip in disk.nodes && disk.nodes[zip].File? && Verified(disk.nodes[zip].entries, members) ==> ok
  {
    if zip !in disk.nodes || !disk.nodes[zip].File? {
      return false;
    }
    var read := disk.Attempt();
    if !read {
      return false;
    }
    var entries := disk.nodes[zip].entries;
    if exists n :: n in entries && !entries[n].sound {
      return false;
    }
    for i := 0 to |members|
      invariant forall k :: 0 <= k < i ==> members[k].name in entries
    {
      if members[i].name !in entries {
        return false;
      }
    }
    for i := 0 to |members|
      invariant forall k :: 0 <= k < i ==> |entries[members[k].name].data| == members[k].size
    {
      if |entries[members[i].name].data| != members[i].size {
        return false;
      }
    }
    return true;
  }

  /** An archive that passed holds every file collected, exactly; unpacked at the music root it puts each back. */
  ghost predicate Restores(entries: map<Path, Entry>, tree: Tree, root: Path, dirs: seq<Path>) {
    && (forall p :: p in tree && tree[p].File? && BelowAny(p, dirs) ==>
          root <= p && p[|root|..] in entries && entries[p[|root|..]] == Entry(tree[p].data, true))
    && (forall n :: n in entries ==> root + n in tree && tree[root + n].File? && BelowAny(root + n, dirs))
  }

  lemma VerifiedIsExact(entries: map<Path, Entry>, members: seq<Member>, tree: Tree, root: Path, dirs: seq<Path>, k: nat)
    requires k < |members| && Members(members, tree, root, dirs)
    requires Written(entries, members, tree) && Verified(entries, members)
    ensures members[k].name in entries && entries[members[k].name] == Entry(tree[members[k].path].data, true)
  {
    var n := members[k].name;
    var j :| 0 <= j < |members| && WrittenFrom(entries, members[j], n, tree);
    assert j == k;
  }

  /** An archive written without a failure passes. */
  lemma WrittenIsVerified(entries: map<Path, Entry>, members: seq<Member>, tree: Tree, root: Path, dirs: seq<Path>)
    requires Members(members, tree, root, dirs) && Written(entries, members, tree) && AllWritten(entries, members, |members|, tree)
    ensures Verified(entries, members)
  {
    forall n | n in entries ensures entries[n].sound {
      var k :| 0 <= k < |members| && WrittenFrom(entries, members[k], n, tree);
      assert WrittenExactly(entries, members[k], tree);
    }
    forall k | 0 <= k < |members| ensures members[k].name in entries && |entries[members[k].name].data| == members[k].size {
      assert WrittenExactly(entries, members[k], tree) && MemberOf(members[k], tree, root);
    }
  }

  lemma VerifiedRestores(entries: map<Path, Entry>, members: seq<Member>, tree: Tree, root: Path, dirs: seq<Path>)
    requires Collected(members, tree, root, dirs)
    requires Written(entries, members, tree) && Verified(entries, members)
    ensures Restores(entries, tree, root, dirs)
  {
    forall p | p in tree && tree[p].File? && BelowAny(p, dirs)
      ensures root <= p && p[|root|..] in entries && entries[p[|root|..]] == Entry(tree[p].data, true)
    {
      var k :| 0 <= k < |members| && members[k].path == p;
      assert p[|root|..] == members[k].name;
      VerifiedIsExact(entries, members, tree, root, dirs, k);
    }
    forall n | n in entries
      ensures root + n in tree && tree[root + n].File? && BelowAny(root + n, dirs)
    {
      var k :| 0 <= k < |members| && WrittenFrom(entries, members[k], n, tree);
      assert MemberOf(members[k], tree, root);
    }
  }

  // ----- removing -----

  ghost predicate Gone(p: Path, dirs: seq<Path>) {
    p in dirs || BelowAny(p, dirs)
  }

  /** Only nodes at or below the directories are missing, and nothing else has changed. */
  ghost predicate RemovedOnly(was: Tree, now: Tree, dirs: seq<Path>) {
    && (forall p :: p in now ==> p in was && now[p] == was[p])
    && (forall p :: p in was && p !in now ==> Gone(p, dirs))
  }

  ghost predicate AllRemovedOnly(was: Tree, states: seq<Tree>, from: nat, dirs: seq<Path>) {
    forall k :: from <= k < |states| ==> RemovedOnly(was, states[k], dirs)
  }

  lemma OneMoreRemoved(was: Tree, now: Tree, p: Path, dirs: seq<Path>)
    requires RemovedOnly(was, now, dirs) && Gone(p, dirs)
    ensures RemovedOnly(was, now - {p}, dirs)
  {
  }

  /** Deletes one node that is to go. */
  method DeleteOne(disk: Disk, ghost was: Tree, ghost from: nat, dirs: seq<Path>, p: Path)
    requires disk.Valid() && from <= |disk.states| && p in disk.nodes && Gone(p, dirs)
    requires RemovedOnly(was, disk.nodes, dirs) && AllRemovedOnly(was, disk.states, from, dirs)
    modifies disk
    ensures disk.Valid() && disk.nodes == old(disk.nodes) - {p} && disk.states == old(disk.states) + [disk.nodes]
    ensures RemovedOnly(was, disk.nodes, dirs) && AllRemovedOnly(was, disk.states, from, dirs)
  {
    OneMoreRemoved(was, disk.nodes, p, dirs);
    disk.Delete(p);
  }

  /** Only nodes at or below this one directory are missing. */
  ghost predicate OnlyTreeGone(was: Tree, now: Tree, d: Path) {
    forall p :: p in was && p != d && !Below(p, d) ==> p in now
  }

  /** Deletes one directory tree, node by node; any deletion may fail and end it. */
  method RemoveTree(disk: Disk, ghost was: Tree, ghost from: nat, dirs: seq<Path>, i: nat) returns (ok: bool)
    requires disk.Valid() && i < |dirs| && from <= |disk.states|
    requires RemovedOnly(was, disk.nodes, dirs) && AllRemovedOnly(was, disk.states, from, dirs)
    modifies disk
    ensures disk.Valid() && |old(disk.states)| <= |disk.states| && old(disk.states) <= disk.states
    ensures RemovedOnly(was, disk.nodes, dirs) && AllRemovedOnly(was, disk.states, from, dirs)
    ensures disk.nodes.Keys <= old(disk.nodes.Keys) && OnlyTreeGone(old(disk.nodes), disk.nodes, dirs[i])
    ensures ok ==> forall p :: p in disk.nodes ==> p != dirs[i] && !Below(p, dirs[i])
    ensures disk.Reliable() ==> (ok <==> dirs[i] in old(disk.nodes) && old(disk.nodes)[dirs[i]].Folder?)
  {
    var d := dirs[i];
    if d !in disk.nodes || !disk.nodes[d].Folder? {
      return false;
    }
    while exists p :: p in disk.nodes && Below(p, d)
      invariant disk.Valid() && old(disk.states) <= disk.states
      invariant RemovedOnly(was, disk.nodes, dirs) && AllRemovedOnly(was, disk.states, from, dirs)
      invariant d in disk.nodes && disk.nodes.Keys <= old(disk.nodes.Keys) && OnlyTreeGone(old(disk.nodes), disk.nodes, d)
      decreases |disk.nodes|
    {
      var unlinked := disk.Attempt();
      if !unlinked {
        return false;
      }
      var p :| p in disk.nodes && Below(p, d);
      assert BelowAny(p, dirs);
      DeleteOne(disk, was, from, dirs, p);
    }
    var removed := disk.Attempt();
    if !removed {
      return false;
    }
    DeleteOne(disk, was, from, dirs, d);
    return true;
  }

  /** No directory is listed twice, or below one listed before it. */
  ghost predicate Unnested(dirs: seq<Path>) {
    forall i, j :: 0 <= i < j < |dirs| ==> dirs[j] != dirs[i] && !Below(dirs[j], dirs[i])
  }

  ghost predicate AllFolders(tree: Tree, dirs: seq<Path>, from: nat) {
    forall k :: from <= k < |dirs| ==> dirs[k] in tree && tree[dirs[k]].Folder?
  }

  /** The first `n` directories are gone, with what lay below them, and nothing else is. */
  ghost predicate GoneSoFar(was: Tree, now: Tree, dirs: seq<Path>, n: nat)
    requires n <= |dirs|
  {
    && (forall p :: p in now ==> p in was && now[p] == was[p] && !Gone(p, dirs[..n]))
    && (forall p :: p in was && p !in now ==> Gone(p, dirs[..n]))
  }

  lemma OneMoreGone(was: Tree, before: Tree, now: Tree, dirs: seq<Path>, i: nat)
    requires i < |dirs| && GoneSoFar(was, before, dirs, i)
    requires forall p :: p in now ==> p in was && now[p] == was[p]
    requires now.Keys <= before.Keys && OnlyTreeGone(before, now, dirs[i])
    requires forall p :: p in now ==> p != dirs[i] && !Below(p, dirs[i])
    ensures GoneSoFar(was, now, dirs, i + 1)
  {
    var more := dirs[..i + 1];
    assert more == dirs[..i] + [dirs[i]];
    forall p ensures Gone(p, more) <==> Gone(p, dirs[..i]) || p == dirs[i] || Below(p, dirs[i]) {
      if Gone(p, dirs[..i]) && p !in dirs[..i] {
        var k :| 0 <= k < i && Below(p, dirs[..i][k]);
        assert Below(p, more[k]);
      }
      assert Below(p, dirs[i]) ==> Below(p, more[i]);
    }
  }

  lemma NestedComesLate(dirs: seq<Path>, i: nat)
    requires i < |dirs| && Unnested(dirs[..i])
    ensures Gone(dirs[i], dirs[..i]) <==> !Unnested(dirs[..i + 1])
    ensures !Unnested(dirs[..i + 1]) ==> !Unnested(dirs)
  {
    var fewer, more := dirs[..i], dirs[..i + 1];
    assert more[i] == dirs[i] && forall k :: 0 <= k < i ==> more[k] == fewer[k] == dirs[k];
    if Gone(dirs[i], fewer) {
      var k :| 0 <= k < i && (dirs[i] == fewer[k] || Below(dirs[i], fewer[k]));
      assert more[i] == more[k] || Below(more[i], more[k]);
    }
  }

  /** A directory is still there when its turn comes, unless it was listed before or lies below one that was. */
  lemma StillThere(was: Tree, now: Tree, dirs: seq<Path>, i: nat)
    requires i < |dirs| && GoneSoFar(was, now, dirs, i) && AllFolders(was, dirs, 0) && Unnested(dirs[..i])
    ensures (dirs[i] in now && now[dirs[i]].Folder?) <==> Unnested(dirs[..i + 1])
    ensures !Unnested(dirs[..i + 1]) ==> !Unnested(dirs)
  {
    NestedComesLate(dirs, i);
    var d := dirs[i];
    assert d in was && was[d].Folder?;
  }

  /** Deletes the directories in turn, and stops at the first that will not go. */
  method RemoveDirs(disk: Disk, dirs: seq<Path>) returns (ok: bool)
    requires disk.Valid()
    modifies disk
    ensures disk.Valid() && old(disk.states) <= disk.states
    ensures RemovedOnly(old(disk.nodes), disk.nodes, dirs)
    ensures AllRemovedOnly(old(disk.nodes), disk.states, |old(disk.states)|, dirs)
    ensures ok ==> forall p :: p in disk.nodes ==> !Gone(p, dirs)
    ensures disk.Reliable() && AllFolders(old(disk.nodes), dirs, 0) ==> (ok <==> Unnested(dirs))
  {
    for i := 0 to |dirs|
      invariant disk.Valid() && old(disk.states) <= disk.states
      invariant RemovedOnly(old(disk.nodes), disk.nodes, dirs)
      invariant AllRemovedOnly(old(disk.nodes), disk.states, |old(disk.states)|, dirs)
      invariant GoneSoFar(old(disk.nodes), disk.nodes, dirs, i)
      invariant disk.Reliable() && AllFolders(old(disk.nodes), dirs, 0) ==> Unnested(dirs[..i])
    {
      ghost var before := disk.nodes;
      var gone := RemoveTree(disk, old(disk.nodes), |old(disk.states)|, dirs, i);
      if disk.Reliable() && AllFolders(old(disk.nodes), dirs, 0) {
        StillThere(old(disk.nodes), before, dirs, i);
      }
      if !gone {
        return false;
      }
      OneMoreGone(old(disk.nodes), before, disk.nodes, dirs, i);
    }
    assert dirs[..|dirs|] == dirs;
    return true;
  }

  /** Only directories are missing, and only empty ones. */
  ghost predicate PrunedOnly(was: Tree, now: Tree) {
    && (forall p :: p in now ==> p in was && now[p] == was[p])
    && (forall p :: p in was && p !in now ==> was[p].Folder? && forall q :: q in now ==> !Below(q, p))
  }

  ghost predicate AllPrunedOnly(was: Tree, states: seq<Tree>, from: nat) {
    forall k :: from <= k < |states| ==> PrunedOnly(was, states[k])
  }

  lemma DeepestExists(todo: set<Path>) returns (p: Path)
    requires todo != {}
    ensures p in todo && forall q :: q in todo ==> |q| <= |p|
  {
    p :| p in todo;
    var rest := todo - {p};
    assert forall q :: q in todo ==> q == p || q in rest;
    if rest != {} {
      var q := DeepestExists(rest);
      p := if |q| > |p| then q else p;
    }
  }

  /** The directory is between the music root and one of those removed. */
  ghost predicate Between(p: Path, root: Path, dirs: seq<Path>) {
    Below(p, root) && exists k :: 0 <= k < |dirs| && Below(dirs[k], p)
  }

  /** Nothing is at `p`, or something no directory, or a directory with something in it. */
  ghost predicate NotEmptied(now: Tree, p: Path) {
    p in now && now[p].Folder? ==> exists q :: q in now && Below(q, p)
  }

  function Parents(root: Path, dirs: seq<Path>): set<Path> {
    set k, n | 0 <= k < |dirs| && |root| < n < |dirs[k]| && root <= dirs[k] :: dirs[k][..n]
  }

  lemma ParentsAre(root: Path, dirs: seq<Path>, p: Path)
    ensures p in Parents(root, dirs) <==> Between(p, root, dirs)
  {
    if Between(p, root, dirs) {
      var k :| 0 <= k < |dirs| && Below(dirs[k], p);
      assert dirs[k][..|p|] == p && dirs[k][..|root|] == p[..|root|] == root;
    }
  }

  /** What pruning has done, with `todo` still to visit. */
  ghost predicate Pruning(was: Tree, now: Tree, root: Path, dirs: seq<Path>) {
    PrunedOnly(was, now) && forall p :: p in was && p !in now ==> Between(p, root, dirs)
  }

  ghost predicate DoneButFor(now: Tree, root: Path, dirs: seq<Path>, todo: set<Path>) {
    forall p :: Between(p, root, dirs) && p !in todo ==> NotEmptied(now, p)
  }

  lemma OneMorePruned(was: Tree, mid: Tree, root: Path, dirs: seq<Path>, p: Path)
    requires Pruning(was, mid, root, dirs) && Between(p, root, dirs)
    requires p in mid && mid[p].Folder? && forall q :: q in mid ==> !Below(q, p)
    ensures Pruning(was, mid - {p}, root, dirs)
  {
  }

  /** One directory, if it is there and empty. */
  method PruneOne(disk: Disk, ghost was: Tree, ghost from: nat, root: Path, dirs: seq<Path>, p: Path, ghost todo: set<Path>)
    requires disk.Valid() && from <= |disk.states| && Between(p, root, dirs)
    requires Pruning(was, disk.nodes, root, dirs) && AllPrunedOnly(was, disk.states, from)
    requires forall q :: Between(q, root, dirs) && q !in todo && q != p ==> |p| <= |q|
    modifies disk
    ensures disk.Valid() && old(disk.states) <= disk.states
    ensures Pruning(was, disk.nodes, root, dirs) && AllPrunedOnly(was, disk.states, from)
    ensures disk.Reliable() && DoneButFor(old(disk.nodes), root, dirs, todo + {p}) ==> DoneButFor(disk.nodes, root, dirs, todo)
  {
    if p in disk.nodes && disk.nodes[p].Folder? && !(exists q :: q in disk.nodes && Below(q, p)) {
      var removed := disk.Attempt();
      if removed {
        OneMorePruned(was, disk.nodes, root, dirs, p);
        disk.Delete(p);
        StillNotEmptied(old(disk.nodes), disk.nodes, root, dirs, todo, p);
      }
    }
  }

  /** What is left to visit is between, and nothing visited is less deep. */
  ghost predicate ToVisit(todo: set<Path>, root: Path, dirs: seq<Path>) {
    && (forall p :: p in todo ==> Between(p, root, dirs))
    && (forall p, q :: Between(p, root, dirs) && p !in todo && q in todo ==> |q| <= |p|)
  }

  lemma AllToVisit(now: Tree, root: Path, dirs: seq<Path>)
    ensures ToVisit(Parents(root, dirs), root, dirs) && DoneButFor(now, root, dirs, Parents(root, dirs))
  {
    forall p ensures p in Parents(root, dirs) <==> Between(p, root, dirs) {
      ParentsAre(root, dirs, p);
    }
  }

  lemma OneVisited(todo: set<Path>, root: Path, dirs: seq<Path>, p: Path)
    requires ToVisit(todo, root, dirs) && p in todo && forall q :: q in todo ==> |q| <= |p|
    ensures ToVisit(todo - {p}, root, dirs) && Between(p, root, dirs) && (todo - {p}) + {p} == todo
    ensures forall q :: Between(q, root, dirs) && q !in todo - {p} && q != p ==> |p| <= |q|
  {
  }

  /** The directories between the music root and each one removed, deepest first; one that is not empty stays. */
  method Prune(disk: Disk, root: Path, dirs: seq<Path>)
    requires disk.Valid()
    modifies disk
    ensures disk.Valid() && old(disk.states) <= disk.states
    ensures Pruning(old(disk.nodes), disk.nodes, root, dirs) && AllPrunedOnly(old(disk.nodes), disk.states, |old(disk.states)|)
    ensures disk.Reliable() ==> DoneButFor(disk.nodes, root, dirs, {})
  {
    var todo := Parents(root, dirs);
    AllToVisit(disk.nodes, root, dirs);
    while todo != {}
      invariant disk.Valid() && old(disk.states) <= disk.states
      invariant Pruning(old(disk.nodes), disk.nodes, root, dirs) && AllPrunedOnly(old(disk.nodes), disk.states, |old(disk.states)|)
      invariant ToVisit(todo, root, dirs)
      invariant disk.Reliable() ==> DoneButFor(disk.nodes, root, dirs, todo)
    {
      ghost var deepest := DeepestExists(todo);
      var p :| p in todo && forall q :: q in todo ==> |q| <= |p|;
      OneVisited(todo, root, dirs, p);
      todo := todo - {p};
      PruneOne(disk, old(disk.nodes), |old(disk.states)|, root, dirs, p, todo);
    }
  }

  /** Deleting a directory leaves no deeper one, nor one as deep, empty. */
  lemma StillNotEmptied(was: Tree, now: Tree, root: Path, dirs: seq<Path>, todo: set<Path>, p: Path)
    requires now == was - {p}
    requires forall q :: Between(q, root, dirs) && q !in todo && q != p ==> |p| <= |q|
    ensures forall q :: Between(q, root, dirs) && q !in todo && q != p && NotEmptied(was, q) ==> NotEmptied(now, q)
  {
    forall q | Between(q, root, dirs) && q !in todo && q != p && NotEmptied(was, q) && q in now && now[q].Folder?
      ensures exists r :: r in now && Below(r, q)
    {
      var r :| r in was && Below(r, q);
      assert r != p && r in now;
    }
  }

  // ----- the whole of it -----

  datatype Outcome = Refused | NotArchived | PartlyRemoved(archive: Path) | Archived(archive: Path)

  const FREE_SPACE_MARGIN := 64 * 1024 * 1024

  function TotalSize(members: seq<Member>): nat {
    if members == [] then 0 else members[0].size + TotalSize(members[1..])
  }

  /** The regular files below the directories. */
  ghost function FilesBelow(tree: Tree, dirs: seq<Path>): set<Path> {
    set p | p in tree && tree[p].File? && BelowAny(p, dirs)
  }

  /** The bytes of some of the disk's files, each counted once. */
  ghost function BytesOf(tree: Tree, files: set<Path>): nat
    requires forall p :: p in files ==> p in tree && tree[p].File?
  {
    if files == {} then 0
    else
      var p :| p in files;
      |tree[p].data| + BytesOf(tree, files - {p})
  }

  lemma {:induction false} BytesWithout(tree: Tree, files: set<Path>, p: Path)
    requires p in files && forall q :: q in files ==> q in tree && tree[q].File?
    ensures BytesOf(tree, files) == |tree[p].data| + BytesOf(tree, files - {p})
    decreases |files|
  {
    var q :| q in files && BytesOf(tree, files) == |tree[q].data| + BytesOf(tree, files - {q});
    if q != p {
      BytesWithout(tree, files - {q}, p);
      BytesWithout(tree, files - {p}, q);
      assert files - {q} - {p} == files - {p} - {q};
    }
  }

  ghost function PathsOf(members: seq<Member>): set<Path> {
    set m | m in members :: m.path
  }

  /** The first member's path is none of the others'. */
  lemma {:induction false} FirstIsApart(members: seq<Member>, tree: Tree, root: Path)
    requires members != [] && forall k :: 0 <= k < |members| ==> MemberOf(members[k], tree, root)
    requires forall i, j :: 0 <= i < j < |members| ==> members[i].name != members[j].name
    ensures members[0].path !in PathsOf(members[1..])
    ensures PathsOf(members) == {members[0].path} + PathsOf(members[1..])
  {
    var p, rest := members[0].path, members[1..];
    assert MemberOf(members[0], tree, root) && p[|root|..] == members[0].name;
    forall m | m in rest ensures m.path != p {
      var k :| 0 <= k < |rest| && rest[k] == m;
      assert MemberOf(members[k + 1], tree, root) && members[k + 1] == m;
      assert m.path[|root|..] == m.name;
    }
    assert members == [members[0]] + rest;
  }

  lemma {:induction false} TotalIsBytes(members: seq<Member>, tree: Tree, root: Path)
    requires forall k :: 0 <= k < |members| ==> MemberOf(members[k], tree, root)
    requires forall i, j :: 0 <= i < j < |members| ==> members[i].name != members[j].name
    ensures forall p :: p in PathsOf(members) ==> p in tree && tree[p].File?
    ensures TotalSize(members) == BytesOf(tree, PathsOf(members))
  {
    if members != [] {
      var p, rest := members[0].path, members[1..];
      TotalIsBytes(rest, tree, root);
      FirstIsApart(members, tree, root);
      assert MemberOf(members[0], tree, root);
      assert PathsOf(members) - {p} == PathsOf(rest);
      BytesWithout(tree, PathsOf(members), p);
    }
  }

  lemma CollectedBytes(members: seq<Member>, tree: Tree, root: Path, dirs: seq<Path>)
    requires Collected(members, tree, root, dirs)
    ensures TotalSize(members) == BytesOf(tree, FilesBelow(tree, dirs))
    ensures members == [] <==> FilesBelow(tree, dirs) == {}
  {
    forall k | 0 <= k < |members| ensures MemberOf(members[k], tree, root) {
    }
    TotalIsBytes(members, tree, root);
    forall p ensures p in PathsOf(members) <==> p in FilesBelow(tree, dirs) {
      if p in FilesBelow(tree, dirs) {
        var k :| 0 <= k < |members| && members[k].path == p;
        assert members[k] in members;
      }
    }
    assert PathsOf(members) == FilesBelow(tree, dirs);
    assert members != [] ==> members[0].path in PathsOf(members);
  }

  /** What an archive refuses: no directories, one that is none inside the music root, no files, or too little room. */
  ghost predicate Refusable(tree: Tree, dirs: seq<Path>, root: Path, free: Option<nat>) {
    || dirs == []
    || (exists k :: 0 <= k < |dirs| && !(root <= dirs[k] && dirs[k] in tree && tree[dirs[k]].Folder?))
    || FilesBelow(tree, dirs) == {}
    || (free.Some? && free.value < 64 * 1024 * 1024 + BytesOf(tree, FilesBelow(tree, dirs)))
  }

  lemma UntouchedIsSafe(was: Tree, now: Tree, root: Path, dirs: seq<Path>, zip: Path)
    requires Untouched(was, now, zip)
    ensures Safe(was, now, root, dirs, zip)
  {
  }

  /** Outside the directories only their parents are missing, where nothing was left in them. */
  ghost predicate OnlyEmptied(was: Tree, now: Tree, root: Path, dirs: seq<Path>) {
    forall p :: p in was && p !in now && !Gone(p, dirs) ==>
      Between(p, root, dirs) && was[p].Folder? && forall q :: q in now ==> !Below(q, p)
  }

  /** Removing what the archive restores loses no file. */
  lemma RemovingIsSafe(was: Tree, archived: Tree, removed: Tree, now: Tree, root: Path, dirs: seq<Path>, zip: Path)
    requires zip !in was && Untouched(was, archived, zip) && zip in archived && archived[zip].File?
    requires Restores(archived[zip].entries, was, root, dirs)
    requires RemovedOnly(archived, removed, dirs) && PrunedOnly(removed, now) && !Gone(zip, dirs)
    requires forall k :: 0 <= k < |dirs| ==> dirs[k] in was && was[dirs[k]].Folder?
    ensures Safe(was, now, root, dirs, zip)
  {
    assert zip in removed && removed[zip] == archived[zip];
    assert zip in now && now[zip] == archived[zip];
    forall p | p in was && !was[p].Folder? && !(p in now && now[p] == was[p])
      ensures BelowAny(p, dirs)
    {
      assert archived[p] == was[p];
      assert p !in removed && Gone(p, dirs);
    }
  }

  /**
   The archive goes in the music root under a new name, so the removal spares it exactly when the root itself is not
   one of the directories.
   */
  lemma ArchiveIsSparedExactly(was: Tree, root: Path, dirs: seq<Path>, zip: Path)
    requires zip !in was && |zip| == |root| + 1 && root <= zip
    requires forall k :: 0 <= k < |dirs| ==> root <= dirs[k] && dirs[k] in was
    ensures !Gone(zip, dirs) <==> root !in dirs
  {
    if root in dirs {
      var k :| 0 <= k < |dirs| && dirs[k] == root;
      assert Below(zip, dirs[k]);
    } else {
      forall k | 0 <= k < |dirs| ensures !Below(zip, dirs[k]) && zip != dirs[k] {
        ProperPrefix(root, dirs[k]);
      }
    }
  }

  /** Archiving the music root itself would remove the archive with everything else, and lose every file in the library. */
  lemma TheRootItselfWouldBeLost(was: Tree, now: Tree, root: Path, dirs: seq<Path>, zip: Path)
    requires zip !in was && |zip| == |root| + 1 && root <= zip
    requires forall k :: 0 <= k < |dirs| ==> root <= dirs[k] && dirs[k] in was
    requires root in dirs && (forall q :: q in now ==> !Gone(q, dirs))
    ensures zip !in now
    ensures forall p :: p in was && was[p].File? && Below(p, root) ==> p !in now && !InArchive(was, now, root, zip, p)
    ensures (exists p :: p in was && was[p].File? && Below(p, root)) ==> !Safe(was, now, root, dirs, zip)
  {
    ArchiveIsSparedExactly(was, root, dirs, zip);
    var k :| 0 <= k < |dirs| && dirs[k] == root;
    assert Gone(zip, dirs);
    forall p | p in was && Below(p, root) ensures Gone(p, dirs) {
      assert Below(p, dirs[k]) && BelowAny(p, dirs);
    }
  }

  lemma ProperPrefix(root: Path, d: Path)
    requires root <= d && d != root
    ensures root < d
  {
    assert |root| == |d| ==> root == d;
  }

  method ArchiveAndRemove(disk: Disk, dirs: seq<Path>, root: Path, stem: string, free: Option<nat>) returns (out: Outcome, ghost zip: Path)
    requires disk.Valid() && root !in dirs
    modifies disk
    ensures disk.Valid()
    // At every step, whatever fails, no file is lost and nothing outside the directories changes.
    ensures AllSafe(old(disk.nodes), disk.states, |old(disk.states)|, root, dirs, zip)
    ensures Safe(old(disk.nodes), disk.nodes, root, dirs, zip)
    // The archive is a new file: no earlier one is overwritten.
    ensures zip !in old(disk.nodes)
    ensures root + [stem + ".zip"] !in old(disk.nodes) ==> zip == root + [stem + ".zip"]
    // A failure before the removal leaves every file where it was.
    ensures out.Refused? ==> disk.nodes == old(disk.nodes) && disk.states == old(disk.states)
    ensures out.NotArchived? ==> Untouched(old(disk.nodes), disk.nodes, zip) && (zip in disk.nodes ==> disk.JustFailed())
    // Otherwise the archive is complete and restores everything in place.
    ensures out.PartlyRemoved? || out.Archived? ==> out.archive == zip && zip in disk.nodes && disk.nodes[zip].File?
    ensures out.PartlyRemoved? || out.Archived? ==> Restores(disk.nodes[zip].entries, old(disk.nodes), root, dirs)
    ensures out.Archived? ==> forall p :: p in disk.nodes ==> !Gone(p, dirs)
    // It refuses exactly what it must, and where nothing fails it does the rest.
    ensures out.Refused? <==> Refusable(old(disk.nodes), dirs, root, free)
    ensures disk.Reliable() && !out.Refused? ==> (if Unnested(dirs) then out.Archived? else out.PartlyRemoved?)
    ensures disk.Reliable() && out.Archived? ==> DoneButFor(disk.nodes, root, dirs, {})
    ensures OnlyEmptied(old(disk.nodes), disk.nodes, root, dirs)
  {
    ghost var was, from := disk.nodes, |disk.states|;
    var path := UniquePath(disk, root, stem);
    zip := path;
    UntouchedIsSafe(was, was, root, dirs, zip);
    if dirs == [] {
      return Refused, zip;
    }
    var collected := Collect(disk.nodes, root, dirs);
    if collected.None? {
      return Refused, zip;
    }
    CollectedBytes(collected.value, was, root, dirs);
    if collected.value == [] {
      return Refused, zip;
    }
    var members := collected.value;
    if free.Some? && free.value < TotalSize(members) + FREE_SPACE_MARGIN {
      return Refused, zip;
    }
    out := ArchiveCollected(disk, dirs, root, path, members);
  }

  /** Once there is something to archive, and room for it. */
  method ArchiveCollected(disk: Disk, dirs: seq<Path>, root: Path, zip: Path, members: seq<Member>) returns (out: Outcome)
    requires disk.Valid() && root !in dirs && zip !in disk.nodes && Collected(members, disk.nodes, root, dirs)
    requires |zip| == |root| + 1 && root <= zip
    requires AllFolders(disk.nodes, dirs, 0) && forall k :: 0 <= k < |dirs| ==> root <= dirs[k]
    modifies disk
    ensures disk.Valid() && !out.Refused?
    ensures AllSafe(old(disk.nodes), disk.states, |old(disk.states)|, root, dirs, zip)
    ensures Safe(old(disk.nodes), disk.nodes, root, dirs, zip)
    ensures out.NotArchived? ==> Untouched(old(disk.nodes), disk.nodes, zip) && (zip in disk.nodes ==> disk.JustFailed())
    ensures out.PartlyRemoved? || out.Archived? ==> out.archive == zip && zip in disk.nodes && disk.nodes[zip].File?
    ensures out.PartlyRemoved? || out.Archived? ==> Restores(disk.nodes[zip].entries, old(disk.nodes), root, dirs)
    ensures out.Archived? ==> forall p :: p in disk.nodes ==> !Gone(p, dirs)
    ensures disk.Reliable() ==> (if Unnested(dirs) then out.Archived? else out.PartlyRemoved?)
    ensures disk.Reliable() && out.Archived? ==> DoneButFor(disk.nodes, root, dirs, {})
    ensures OnlyEmptied(old(disk.nodes), disk.nodes, root, dirs)
  {
    ghost var was, from := disk.nodes, |disk.states|;
    var ok := WriteAndVerify(disk, root, dirs, zip, members);
    forall k | from <= k < |disk.states| ensures Safe(was, disk.states[k], root, dirs, zip) {
      UntouchedIsSafe(was, disk.states[k], root, dirs, zip);
    }
    UntouchedIsSafe(was, disk.nodes, root, dirs, zip);
    if !ok {
      return NotArchived;
    }
    ArchiveIsSparedExactly(was, root, dirs, zip);
    var removed := RemoveAndPrune(disk, was, from, root, dirs, zip);
    out := if removed then Archived(zip) else PartlyRemoved(zip);
  }

  /** Writes the archive and checks it; on any failure the partial archive goes, if that can be done. */
  method WriteAndVerify(disk: Disk, root: Path, dirs: seq<Path>, zip: Path, members: seq<Member>) returns (ok: bool)
    requires disk.Valid() && zip !in disk.nodes && Collected(members, disk.nodes, root, dirs)
    modifies disk
    ensures disk.Valid() && |old(disk.states)| <= |disk.states|
    ensures Untouched(old(disk.nodes), disk.nodes, zip)
    ensures AllUntouched(old(disk.nodes), disk.states, |old(disk.states)|, zip)
    ensures ok ==> zip in disk.nodes && disk.nodes[zip].File? && Restores(disk.nodes[zip].entries, old(disk.nodes), root, dirs)
    ensures !ok ==> zip in disk.nodes ==> disk.JustFailed()
    ensures disk.Reliable() ==> ok
  {
    ok := Write(disk, zip, members);
    if ok {
      if disk.Reliable() {
        WrittenIsVerified(disk.nodes[zip].entries, members, old(disk.nodes), root, dirs);
      }
      ok := Verify(disk, zip, members);
    }
    if ok {
      VerifiedRestores(disk.nodes[zip].entries, members, old(disk.nodes), root, dirs);
    } else {
      var unlinked := disk.Attempt();
      if unlinked {
        disk.Delete(zip);
      }
    }
  }

  method RemoveAndPrune(disk: Disk, ghost was: Tree, ghost from: nat, root: Path, dirs: seq<Path>, zip: Path) returns (ok: bool)
    requires disk.Valid() && from <= |disk.states|
    requires zip !in was && Untouched(was, disk.nodes, zip) && zip in disk.nodes && disk.nodes[zip].File?
    requires Restores(disk.nodes[zip].entries, was, root, dirs) && !Gone(zip, dirs)
    requires forall k :: 0 <= k < |dirs| ==> dirs[k] in was && was[dirs[k]].Folder?
    requires AllSafe(was, disk.states, from, root, dirs, zip)
    modifies disk
    ensures disk.Valid() && old(disk.states) <= disk.states
    ensures AllSafe(was, disk.states, from, root, dirs, zip) && Safe(was, disk.nodes, root, dirs, zip)
    ensures zip in disk.nodes && disk.nodes[zip] == old(disk.nodes[zip])
    ensures ok ==> forall p :: p in disk.nodes ==> !Gone(p, dirs)
    ensures disk.Reliable() ==> (ok <==> Unnested(dirs))
    ensures disk.Reliable() && ok ==> DoneButFor(disk.nodes, root, dirs, {})
    ensures OnlyEmptied(was, disk.nodes, root, dirs)
  {
    ghost var archived := disk.nodes;
    ok := RemoveDirs(disk, dirs);
    ghost var removed, mid := disk.nodes, |disk.states|;
    forall k | from <= k < |disk.states| ensures Safe(was, disk.states[k], root, dirs, zip) {
      if |old(disk.states)| <= k {
        RemovingIsSafe(was, archived, disk.states[k], disk.states[k], root, dirs, zip);
      } else {
        assert disk.states[k] == old(disk.states)[k];
      }
    }
    RemovingIsSafe(was, archived, removed, removed, root, dirs, zip);
    if ok {
      Prune(disk, root, dirs);
      forall k | from <= k < |disk.states| ensures Safe(was, disk.states[k], root, dirs, zip) {
        if mid <= k {
          RemovingIsSafe(was, archived, removed, disk.states[k], root, dirs, zip);
        }
      }
      RemovingIsSafe(was, archived, removed, disk.nodes, root, dirs, zip);
    }
  }
}
