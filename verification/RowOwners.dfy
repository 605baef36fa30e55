/** Which of a poll's tasks may write the row of the key they share. */
module RowOwners {
  import opened Prelude

  /** One listed task: the key of its row, its id, its creation time when it has a readable one, and whether its status is a dead one. */
  datatype Item = Item(key: string, task: string, created: Option<int>, dead: bool)

  /** The tasks of one key, in the order they are listed. */
  function Of(s: seq<Item>, key: string): (r: seq<Item>)
    ensures forall x :: x in r <==> x in s && x.key == key
  {
    if s == [] then []
    else
      var n := |s| - 1;
      assert s == s[..n] + [s[n]];
      if s[n].key == key then Of(s[..n], key) + [s[n]] else Of(s[..n], key)
  }

  function Living(s: seq<Item>): (r: seq<Item>)
    ensures forall x :: x in r <==> x in s && !x.dead
  {
    if s == [] then []
    else
      var n := |s| - 1;
      assert s == s[..n] + [s[n]];
      if !s[n].dead then Living(s[..n]) + [s[n]] else Living(s[..n])
  }

  // ----- what one poll selects -----

  /** The keys in the order they are first listed. */
  function Keys(items: seq<Item>): (r: seq<string>)
    ensures forall k :: k in r <==> exists x :: x in items && x.key == k
  {
    if items == [] then []
    else
      var n := |items| - 1;
      assert items == items[..n] + [items[n]];
      var ks := Keys(items[..n]);
      if items[n].key in ks then ks else ks + [items[n].key]
  }

  predicate Stamped(group: seq<Item>) {
    forall x :: x in group ==> x.created.Some?
  }

  /** The first of the newest. */
  function Newest(group: seq<Item>): (r: Item)
    requires group != [] && Stamped(group)
    ensures r in group && forall x :: x in group ==> x.created.value <= r.created.value
  {
    if |group| == 1 then group[0]
    else
      var n := |group| - 1;
      assert group == group[..n] + [group[n]];
      var best := Newest(group[..n]);
      if group[n].created.value > best.created.value then group[n] else best
  }

  /** The newest task of a stamped group; nothing of any other. */
  function OwnerOf(group: seq<Item>): (r: seq<Item>)
    ensures forall x :: x in r ==> x in group
  {
    if group != [] && Stamped(group) then [Newest(group)] else []
  }

  /** The whole of a group with a missing stamp; nothing of any other. */
  function HeldBack(group: seq<Item>): (r: seq<Item>)
    ensures forall x :: x in r ==> x in group
  {
    if Stamped(group) then [] else group
  }

  function Owners(items: seq<Item>, keys: seq<string>): seq<Item> {
    if keys == [] then []
    else
      var n := |keys| - 1;
      var g := Of(items, keys[n]);
      Owners(items, keys[..n]) + OwnerOf(g)
  }

  function Rest(items: seq<Item>, keys: seq<string>): seq<Item> {
    if keys == [] then []
    else
      var n := |keys| - 1;
      var g := Of(items, keys[n]);
      Rest(items, keys[..n]) + HeldBack(g)
  }

  function Stuck(items: seq<Item>): set<string> {
    set x | x in items && x.dead :: x.task
  }

  function AliveKeys(rest: seq<Item>, stuck: set<string>): set<string> {
    set x | x in rest && x.task !in stuck :: x.key
  }

  /** The last listed dead task of each key. */
  function LastDead(rest: seq<Item>, stuck: set<string>): (r: map<string, string>)
    ensures forall x :: x in rest && x.task in stuck ==> x.key in r
  {
    if rest == [] then map[]
    else
      var n := |rest| - 1;
      assert rest == rest[..n] + [rest[n]];
      var before := LastDead(rest[..n], stuck);
      if rest[n].task in stuck then before[rest[n].key := rest[n].task] else before
  }

  predicate Writes(x: Item, stuck: set<string>, alive: set<string>, lastDead: map<string, string>) {
    x.task !in stuck || (x.key !in alive && x.key in lastDead && lastDead[x.key] == x.task)
  }

  function Sift(s: seq<Item>, stuck: set<string>, alive: set<string>, lastDead: map<string, string>): (r: seq<Item>)
    ensures forall x :: x in r <==> x in s && Writes(x, stuck, alive, lastDead)
  {
    if s == [] then []
    else
      var n := |s| - 1;
      assert s == s[..n] + [s[n]];
      if Writes(s[n], stuck, alive, lastDead) then Sift(s[..n], stuck, alive, lastDead) + [s[n]]
      else Sift(s[..n], stuck, alive, lastDead)
  }

  function RestWriters(rest: seq<Item>, stuck: set<string>): seq<Item> {
    Sift(rest, stuck, AliveKeys(rest, stuck), LastDead(rest, stuck))
  }

  /** The tasks that go on to write rows. */
  function Live(items: seq<Item>): seq<Item> {
    Owners(items, Keys(items)) + RestWriters(Rest(items, Keys(items)), Stuck(items))
  }

  /** The selection as the poll makes it: group, pick the owners, then sift the rest. */
  method SelectWriters(items: seq<Item>) returns (live: seq<Item>)
    ensures live == Live(items)
  {
    var stuck := set x | x in items && x.dead :: x.task;
    var order, groups := GroupByKey(items);
    var owners, rest := PickOwners(items, order, groups);
    var alive := set x | x in rest && x.task !in stuck :: x.key;
    var lastDead := LastDeadByKey(rest, stuck);
    live := owners + Sift(rest, stuck, alive, lastDead);
  }

  /** One owner for each fully stamped group; every other group goes to the rest whole. */
  method PickOwners(ghost items: seq<Item>, order: seq<string>, groups: map<string, seq<Item>>) returns (owners: seq<Item>, rest: seq<Item>)
    requires forall k :: k in order ==> k in groups && groups[k] != [] && groups[k] == Of(items, k)
    ensures owners == Owners(items, order) && rest == Rest(items, order)
  {
    owners, rest := [], [];
    for i := 0 to |order|
      invariant owners == Owners(items, order[..i]) && rest == Rest(items, order[..i])
    {
      assert order[..i + 1][..i] == order[..i];
      var group: seq<Item> := groups[order[i]];
      var stamped := forall x: Item :: x in group ==> x.created.Some?;
      if stamped {
        var newest := MaxCreated(group);
        owners := owners + [newest];
      } else {
        rest := rest + group;
      }
    }
    assert order[..|order|] == order;
  }

  /** The tasks of each key, and the keys in the order they are first listed. */
  method GroupByKey(items: seq<Item>) returns (order: seq<string>, groups: map<string, seq<Item>>)
    ensures order == Keys(items)
    ensures forall k :: k in order ==> k in groups && groups[k] != [] && groups[k] == Of(items, k)
  {
    order, groups := [], map[];
    for i := 0 to |items|
      invariant order == Keys(items[..i])
      invariant forall k :: k in groups <==> k in order
      invariant forall k :: k in groups ==> groups[k] != [] && groups[k] == Of(items[..i], k)
    {
      var x := items[i];
      assert items[..i + 1][..i] == items[..i];
      if x.key !in groups {
        order := order + [x.key];
        groups := groups[x.key := []];
        NoneOf(items[..i], x.key);
      }
      groups := groups[x.key := groups[x.key] + [x]];
    }
    assert items[..|items|] == items;
  }

  method LastDeadByKey(rest: seq<Item>, stuck: set<string>) returns (lastDead: map<string, string>)
    ensures lastDead == LastDead(rest, stuck)
  {
    lastDead := map[];
    for i := 0 to |rest|
      invariant lastDead == LastDead(rest[..i], stuck)
    {
      assert rest[..i + 1][..i] == rest[..i];
      if rest[i].task in stuck {
        lastDead := lastDead[rest[i].key := rest[i].task];
      }
    }
    assert rest[..|rest|] == rest;
  }

  lemma NewestOfOneMore(group: seq<Item>, i: nat)
    requires 0 < i < |group| && Stamped(group)
    ensures Stamped(group[..i]) && Stamped(group[..i + 1])
    ensures Newest(group[..i + 1]) == if group[i].created.value > Newest(group[..i]).created.value then group[i] else Newest(group[..i])
  {
    StampedPrefix(group, i);
    StampedPrefix(group, i + 1);
    assert group[..i + 1][..i] == group[..i];
  }

  lemma StampedPrefix(group: seq<Item>, i: nat)
    requires i <= |group| && Stamped(group)
    ensures Stamped(group[..i])
  {
    assert forall x :: x in group[..i] ==> x in group;
  }

  method MaxCreated(group: seq<Item>) returns (best: Item)
    requires group != [] && Stamped(group)
    ensures best == Newest(group)
  {
    best := group[0];
    assert group[..1] == [best];
    for i := 1 to |group|
      invariant Stamped(group[..i]) && best == Newest(group[..i])
    {
      NewestOfOneMore(group, i);
      assert group[i] in group;
      if group[i].created.value > best.created.value {
        best := group[i];
      }
    }
    assert group[..|group|] == group;
  }

  // ----- what is promised for one row -----

  /** Who should write a row, looking at its own tasks alone: the newest when all are stamped; otherwise every live one; otherwise the last listed. */
  function RowWriters(group: seq<Item>): seq<Item>
    requires group != []
  {
    if Stamped(group) then [Newest(group)]
    else if exists x :: x in group && !x.dead then Living(group)
    else [group[|group| - 1]]
  }

  predicate DistinctTasks(items: seq<Item>) {
    forall i, j :: 0 <= i < j < |items| ==> items[i].task != items[j].task
  }

  lemma {:induction false} OfAppend(a: seq<Item>, b: seq<Item>, key: string)
    ensures Of(a + b, key) == Of(a, key) + Of(b, key)
  {
    if b == [] {
      assert a + b == a;
    } else {
      var n := |b| - 1;
      assert (a + b)[..|a + b| - 1] == a + b[..n];
      OfAppend(a, b[..n], key);
    }
  }

  /** Sifting works key by key. */
  lemma {:induction false} SiftOf(s: seq<Item>, stuck: set<string>, alive: set<string>, lastDead: map<string, string>, key: string)
    ensures Of(Sift(s, stuck, alive, lastDead), key) == Sift(Of(s, key), stuck, alive, lastDead)
  {
    if s != [] {
      var n := |s| - 1;
      SiftOf(s[..n], stuck, alive, lastDead, key);
      OfAppend(Sift(s[..n], stuck, alive, lastDead), [s[n]], key);
    }
  }

  lemma {:induction false} SiftLiving(g: seq<Item>, stuck: set<string>, alive: set<string>, lastDead: map<string, string>)
    requires forall x :: x in g ==> Writes(x, stuck, alive, lastDead) == !x.dead
    ensures Sift(g, stuck, alive, lastDead) == Living(g)
  {
    if g != [] {
      SiftLiving(g[..|g| - 1], stuck, alive, lastDead);
    }
  }

  lemma {:induction false} SiftNone(g: seq<Item>, stuck: set<string>, alive: set<string>, lastDead: map<string, string>)
    requires forall x :: x in g ==> !Writes(x, stuck, alive, lastDead)
    ensures Sift(g, stuck, alive, lastDead) == []
  {
    if g != [] {
      SiftNone(g[..|g| - 1], stuck, alive, lastDead);
    }
  }

  lemma {:induction false} AllOf(s: seq<Item>, key: string)
    requires forall x :: x in s ==> x.key == key
    ensures Of(s, key) == s
  {
    if s != [] {
      var n := |s| - 1;
      assert s == s[..n] + [s[n]];
      AllOf(s[..n], key);
    }
  }

  lemma {:induction false} NoneOf(s: seq<Item>, key: string)
    requires forall x :: x in s ==> x.key != key
    ensures Of(s, key) == []
  {
    if s != [] {
      NoneOf(s[..|s| - 1], key);
    }
  }

  lemma {:induction false} KeysDistinct(items: seq<Item>)
    ensures forall i, j :: 0 <= i < j < |Keys(items)| ==> Keys(items)[i] != Keys(items)[j]
  {
    if items != [] {
      KeysDistinct(items[..|items| - 1]);
    }
  }

  /** What one more key adds to another key's share. */
  lemma ShareOf(items: seq<Item>, k: string, key: string)
    ensures Of(OwnerOf(Of(items, k)), key) == if k == key then OwnerOf(Of(items, key)) else []
    ensures Of(HeldBack(Of(items, k)), key) == if k == key then HeldBack(Of(items, key)) else []
  {
    var g := Of(items, k);
    if k == key {
      AllOf(OwnerOf(g), key);
      AllOf(HeldBack(g), key);
    } else {
      NoneOf(OwnerOf(g), key);
      NoneOf(HeldBack(g), key);
    }
  }

  lemma OwnersGrow(items: seq<Item>, keys: seq<string>, key: string)
    requires keys != []
    ensures var n := |keys| - 1;
      Of(Owners(items, keys), key) == Of(Owners(items, keys[..n]), key) + (if keys[n] == key then OwnerOf(Of(items, key)) else [])
  {
    var n := |keys| - 1;
    ShareOf(items, keys[n], key);
    OfAppend(Owners(items, keys[..n]), OwnerOf(Of(items, keys[n])), key);
  }

  lemma RestGrows(items: seq<Item>, keys: seq<string>, key: string)
    requires keys != []
    ensures var n := |keys| - 1;
      Of(Rest(items, keys), key) == Of(Rest(items, keys[..n]), key) + (if keys[n] == key then HeldBack(Of(items, key)) else [])
  {
    var n := |keys| - 1;
    ShareOf(items, keys[n], key);
    OfAppend(Rest(items, keys[..n]), HeldBack(Of(items, keys[n])), key);
  }

  /** Among the owners of distinct keys, a key finds its own newest task and nothing else. */
  lemma {:induction false} OwnersOf(items: seq<Item>, keys: seq<string>, key: string)
    requires forall i, j :: 0 <= i < j < |keys| ==> keys[i] != keys[j]
    ensures Of(Owners(items, keys), key) == if key in keys then OwnerOf(Of(items, key)) else []
  {
    if keys != [] {
      OwnersOf(items, keys[..|keys| - 1], key);
      KeyAmong(keys, key);
      OwnersGrow(items, keys, key);
    }
  }

  /** Among the rest, a key with a missing stamp finds all its own tasks. */
  lemma {:induction false} RestOf(items: seq<Item>, keys: seq<string>, key: string)
    requires forall i, j :: 0 <= i < j < |keys| ==> keys[i] != keys[j]
    ensures Of(Rest(items, keys), key) == if key in keys then HeldBack(Of(items, key)) else []
  {
    if keys != [] {
      RestOf(items, keys[..|keys| - 1], key);
      KeyAmong(keys, key);
      RestGrows(items, keys, key);
    }
  }

  lemma KeyAmong(keys: seq<string>, key: string)
    requires keys != [] && forall i, j :: 0 <= i < j < |keys| ==> keys[i] != keys[j]
    ensures var n := |keys| - 1; (key in keys <==> key in keys[..n] || key == keys[n]) && keys[n] !in keys[..n]
  {
    var n := |keys| - 1;
    assert keys == keys[..n] + [keys[n]];
  }

  lemma {:induction false} LastDeadOf(rest: seq<Item>, stuck: set<string>, key: string)
    requires Of(rest, key) != [] && forall x :: x in Of(rest, key) ==> x.task in stuck
    ensures key in LastDead(rest, stuck)
    ensures LastDead(rest, stuck)[key] == Of(rest, key)[|Of(rest, key)| - 1].task
  {
    var n := |rest| - 1;
    if rest[n].key == key {
      assert rest[n] in rest;
      assert rest[n] in Of(rest, key);
    } else {
      LastDeadOf(rest[..n], stuck, key);
    }
  }

  lemma {:induction false} LastTaskIsDistinct(s: seq<Item>, key: string)
    requires DistinctTasks(s) && Of(s, key) != []
    ensures LastTold(Of(s, key))
  {
    var n := |s| - 1;
    if s[n].key == key {
      assert Of(s, key)[..|Of(s, key)| - 1] == Of(s[..n], key);
      forall x | x in Of(s[..n], key)
        ensures x.task != s[n].task
      {
        assert x in s[..n];
      }
    } else {
      LastTaskIsDistinct(s[..n], key);
    }
  }

  lemma DeadByTask(items: seq<Item>)
    requires DistinctTasks(items)
    ensures forall x :: x in items ==> (x.task in Stuck(items) <==> x.dead)
  {
    forall x | x in items && x.task in Stuck(items)
      ensures x.dead
    {
      var i :| 0 <= i < |items| && items[i] == x;
      var j :| 0 <= j < |items| && items[j].dead && items[j].task == x.task;
    }
  }

  /** The whole poll, with its groups, orders and lookups, comes down to each row's own tasks: what it selects for a key is what that key's tasks call for. */
  lemma SelectionIsPerRow(items: seq<Item>, key: string)
    requires DistinctTasks(items) && Of(items, key) != []
    ensures Of(Live(items), key) == RowWriters(Of(items, key))
  {
    var g, keys, stuck := Of(items, key), Keys(items), Stuck(items);
    var rest := Rest(items, keys);
    assert g[0] in g && key in keys;
    KeysDistinct(items);
    OwnersOf(items, keys, key);
    RestOf(items, keys, key);
    OfAppend(Owners(items, keys), RestWriters(rest, stuck), key);
    RestWritersOf(items, rest, key);
  }

  lemma RestWritersOf(items: seq<Item>, rest: seq<Item>, key: string)
    requires DistinctTasks(items) && Of(items, key) != []
    requires Of(rest, key) == if Stamped(Of(items, key)) then [] else Of(items, key)
    ensures Of(RestWriters(rest, Stuck(items)), key) == if Stamped(Of(items, key)) then [] else RowWriters(Of(items, key))
  {
    SiftOf(rest, Stuck(items), AliveKeys(rest, Stuck(items)), LastDead(rest, Stuck(items)), key);
    if !Stamped(Of(items, key)) {
      DeadByTask(items);
      LastTaskIsDistinct(items, key);
      SiftedRow(rest, Stuck(items), key);
    }
  }

  /** The last task of a group is told from the others by its id. */
  predicate LastTold(g: seq<Item>) {
    g != [] && forall x :: x in g[..|g| - 1] ==> x.task != g[|g| - 1].task
  }

  predicate DeadAreStuck(g: seq<Item>, stuck: set<string>) {
    forall x :: x in g ==> (x.task in stuck <==> x.dead)
  }

  lemma SiftedRow(rest: seq<Item>, stuck: set<string>, key: string)
    requires var g := Of(rest, key); !Stamped(g) && LastTold(g) && DeadAreStuck(g, stuck)
    ensures Sift(Of(rest, key), stuck, AliveKeys(rest, stuck), LastDead(rest, stuck)) == RowWriters(Of(rest, key))
  {
    if exists x :: x in Of(rest, key) && !x.dead {
      SomeAlive(rest, stuck, key);
    } else {
      NoneAlive(rest, stuck, key);
    }
  }

  lemma SomeAlive(rest: seq<Item>, stuck: set<string>, key: string)
    requires DeadAreStuck(Of(rest, key), stuck)
    requires exists x :: x in Of(rest, key) && !x.dead
    ensures Sift(Of(rest, key), stuck, AliveKeys(rest, stuck), LastDead(rest, stuck)) == Living(Of(rest, key))
  {
    var x :| x in Of(rest, key) && !x.dead;
    assert x.key in AliveKeys(rest, stuck);
    SiftLiving(Of(rest, key), stuck, AliveKeys(rest, stuck), LastDead(rest, stuck));
  }

  lemma NoneAlive(rest: seq<Item>, stuck: set<string>, key: string)
    requires LastTold(Of(rest, key)) && DeadAreStuck(Of(rest, key), stuck)
    requires forall x :: x in Of(rest, key) ==> x.dead
    ensures var g := Of(rest, key); Sift(g, stuck, AliveKeys(rest, stuck), LastDead(rest, stuck)) == [g[|g| - 1]]
  {
    var g, alive, lastDead := Of(rest, key), AliveKeys(rest, stuck), LastDead(rest, stuck);
    var n := |g| - 1;
    LastDeadOf(rest, stuck, key);
    forall x | x in rest && x.task !in stuck
      ensures x.key != key
    {
      assert x.key == key ==> x in g;
    }
    forall x | x in g[..n]
      ensures !Writes(x, stuck, alive, lastDead)
    {
      assert x in g;
    }
    SiftNone(g[..n], stuck, alive, lastDead);
    assert g[n] in g;
  }

  // ----- consequences -----

  /** No listed row is left without a writer, a fully stamped row has exactly one, and a row with no live task and a missing stamp has exactly one. */
  lemma EveryRowHasAWriter(items: seq<Item>, key: string)
    requires DistinctTasks(items) && Of(items, key) != []
    ensures Of(Live(items), key) != []
    ensures Stamped(Of(items, key)) || (forall x :: x in Of(items, key) ==> x.dead) ==> |Of(Live(items), key)| == 1
  {
    SelectionIsPerRow(items, key);
    var g := Of(items, key);
    if x :| x in g && !x.dead {
      assert !Stamped(g) ==> x in RowWriters(g);
    }
  }

  lemma WritersAreRowWriters(items: seq<Item>, x: Item)
    requires DistinctTasks(items) && x in items
    ensures Of(items, x.key) != [] && x in Of(items, x.key)
    ensures x in Live(items) <==> x in RowWriters(Of(items, x.key))
  {
    assert x in Of(items, x.key);
    SelectionIsPerRow(items, x.key);
    var here := Of(Live(items), x.key);
    assert x in here <==> x in Live(items);
  }

  /** A task of a fully stamped row writes it only if none of the row's tasks is newer, and does if it is newer than all of them. */
  lemma WritersOfAStampedRow(items: seq<Item>, x: Item)
    requires DistinctTasks(items) && x in items && Stamped(Of(items, x.key))
    ensures var g := Of(items, x.key);
      && (x in Live(items) ==> forall y :: y in g ==> y.created.value <= x.created.value)
      && ((forall y :: y in g && y != x ==> y.created.value < x.created.value) ==> x in Live(items))
  {
    WritersAreRowWriters(items, x);
    var newest := Newest(Of(items, x.key));
    assert x in Live(items) <==> x == newest;
  }

  /** Task `k` of the group is newer than all listed before it and no older than any listed after. */
  predicate FirstNewest(g: seq<Item>, k: nat)
    requires k < |g| && AllStamped(g)
  {
    && (forall j :: 0 <= j < k ==> g[j].created.value < g[k].created.value)
    && (forall j :: k < j < |g| ==> g[j].created.value <= g[k].created.value)
  }

  predicate AllStamped(g: seq<Item>) {
    forall j :: 0 <= j < |g| ==> g[j].created.Some?
  }

  lemma StampedIs(g: seq<Item>)
    ensures Stamped(g) <==> AllStamped(g)
  {
    if Stamped(g) {
      forall j | 0 <= j < |g|
        ensures g[j].created.Some?
      {
        assert g[j] in g;
      }
    }
  }

  lemma FirstNewestOfOneMore(g: seq<Item>, k: nat)
    requires AllStamped(g) && k < |g| - 1 && AllStamped(g[..|g| - 1]) && FirstNewest(g[..|g| - 1], k)
    ensures FirstNewest(g, if g[|g| - 1].created.value > g[k].created.value then |g| - 1 else k)
  {
    var n := |g| - 1;
    assert forall j :: 0 <= j < n ==> g[..n][j] == g[j];
  }

  lemma {:induction false} NewestIsFirst(g: seq<Item>) returns (k: nat)
    requires g != [] && Stamped(g) && AllStamped(g)
    ensures k < |g| && FirstNewest(g, k) && Newest(g) == g[k]
  {
    if |g| == 1 {
      k := 0;
    } else {
      var n := |g| - 1;
      StampedPrefix(g, n);
      StampedIs(g[..n]);
      k := NewestIsFirst(g[..n]);
      FirstNewestOfOneMore(g, k);
      if g[n].created.value > g[k].created.value {
        k := n;
      }
    }
  }

  /** A fully stamped row is written by one task alone, and among equally new ones by the first listed. */
  lemma TieGoesToFirstListed(items: seq<Item>, key: string) returns (k: nat)
    requires DistinctTasks(items) && Of(items, key) != [] && Stamped(Of(items, key))
    ensures AllStamped(Of(items, key)) && k < |Of(items, key)| && FirstNewest(Of(items, key), k) && Of(Live(items), key) == [Of(items, key)[k]]
  {
    SelectionIsPerRow(items, key);
    StampedIs(Of(items, key));
    k := NewestIsFirst(Of(items, key));
  }

  /** A row with a missing stamp is written by exactly its live tasks, never by a dead one beside them; with none alive, by the last one listed. */
  lemma WritersOfAnUnstampedRow(items: seq<Item>, x: Item)
    requires DistinctTasks(items) && x in items && !Stamped(Of(items, x.key))
    ensures var g := Of(items, x.key);
      x in Live(items) <==> if exists y :: y in g && !y.dead then !x.dead else x == g[|g| - 1]
  {
    WritersAreRowWriters(items, x);
  }

  ghost predicate SameItems(a: seq<Item>, b: seq<Item>) {
    forall x :: x in a <==> x in b
  }

  predicate DistinctStamps(group: seq<Item>) {
    forall x, y :: x in group && y in group && x.created.Some? && x.created == y.created ==> x == y
  }

  /** However the upstream orders its list, a row whose stamps are all present and distinct, or one with a missing stamp and a live task, has the same writers. Only an all-dead row with a missing stamp looks at the order. */
  lemma WritersIgnoreListOrder(a: seq<Item>, b: seq<Item>, x: Item)
    requires DistinctTasks(a) && DistinctTasks(b) && SameItems(a, b) && x in a
    requires var g := Of(a, x.key); if Stamped(g) then DistinctStamps(g) else exists y :: y in g && !y.dead
    ensures x in Live(a) <==> x in Live(b)
  {
    var g, h := Of(a, x.key), Of(b, x.key);
    assert SameItems(g, h);
    if !Stamped(g) {
      WritersOfAnUnstampedRow(a, x);
      WritersOfAnUnstampedRow(b, x);
    } else {
      WritersOfAStampedRow(a, x);
      WritersOfAStampedRow(b, x);
      forall y | y in g && y != x
        ensures y.created != x.created
      {
        assert x in g;
      }
    }
  }

  /** ... and that one does: whichever of its dead tasks is listed last writes the row. */
  lemma DeadRowsFollowListOrder(row: seq<Item>, key: string)
    requires DistinctTasks(row) && !Stamped(row)
    requires forall x :: x in row ==> x.key == key && x.dead
    ensures Of(Live(row), key) == [row[|row| - 1]]
  {
    AllOf(row, key);
    SelectionIsPerRow(row, key);
  }
}
