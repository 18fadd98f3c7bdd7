/** Merging the communicators that the processes have described in files of their own: which records of
    different files stand for the same communicator. */
module CommMerge {
  import opened Basics

  /** Which world rank has which rank in a communicator. */
  type Mapping = map<string, string>

  datatype Record = Record(members: Mapping, id: string, name: string)

  /** A file: the rank of its process, and its records in order. */
  datatype File = File(rank: string, records: seq<Record>)

  /** A record's place, and what is printed for it. */
  datatype Entry = Entry(file: nat, at: nat, global: string, local: string, cid: string)

  datatype Group = Group(name: string, entries: seq<Entry>)

  /** A record describes a communicator that its own process belongs to. */
  predicate Own(f: File, j: nat)
    requires j < |f.records|
  {
    f.rank in f.records[j].members
  }

  // ---- Occurrences ----

  /** How often a mapping occurs among the first n records. */
  function Count(rs: seq<Record>, m: Mapping, n: nat): nat
    requires n <= |rs|
  {
    if n == 0 then 0 else Count(rs, m, n - 1) + if rs[n - 1].members == m then 1 else 0
  }

  function Times(f: File, m: Mapping): nat { Count(f.records, m, |f.records|) }

  lemma {:induction false} CountGrows(rs: seq<Record>, m: Mapping, a: nat, b: nat)
    requires a <= b <= |rs|
    ensures Count(rs, m, a) <= Count(rs, m, b)
    ensures a < b && rs[a].members == m ==> Count(rs, m, a) < Count(rs, m, b)
  {
    if a < b { CountGrows(rs, m, a, b - 1); }
  }

  /** Record j is occurrence k of its mapping. */
  predicate Occurs(rs: seq<Record>, m: Mapping, k: nat, j: nat) {
    j < |rs| && rs[j].members == m && Count(rs, m, j) == k
  }

  lemma {:induction false} OneOccurrence(rs: seq<Record>, m: Mapping, k: nat, i: nat, j: nat)
    requires Occurs(rs, m, k, i) && Occurs(rs, m, k, j)
    ensures i == j
  {
    if i < j {
      CountGrows(rs, m, i, j);
    } else if j < i {
      CountGrows(rs, m, j, i);
    }
  }

  lemma {:induction false} FindOccurrence(rs: seq<Record>, m: Mapping, k: nat, n: nat) returns (j: nat)
    requires n <= |rs| && k < Count(rs, m, n)
    ensures j < n && Occurs(rs, m, k, j)
  {
    if k < Count(rs, m, n - 1) {
      j := FindOccurrence(rs, m, k, n - 1);
    } else {
      j := n - 1;
    }
  }

  /** The communicator that the k-th occurrences of a mapping stand for: the entries of the files that
      have one, in the files' order. */
  ghost predicate Members(fs: seq<File>, m: Mapping, k: nat, n: nat, es: seq<Entry>)
    requires n <= |fs|
  {
    // nothing else, in order, correctly printed
    && (forall x | 0 <= x < |es| ::
          && es[x].file < n && Occurs(fs[es[x].file].records, m, k, es[x].at)
          && es[x].global == fs[es[x].file].rank && es[x].global in m && es[x].local == m[es[x].global]
          && es[x].cid == fs[es[x].file].records[es[x].at].id)
    && (forall x, y | 0 <= x < y < |es| :: es[x].file < es[y].file)
    // nothing left out
    && (forall f | 0 <= f < n && k < Times(fs[f], m) && fs[f].rank in m :: exists x | 0 <= x < |es| :: es[x].file == f)
  }

  // ---- The merge ----

  type Row = seq<Option<Record>>

  /** Occurrences below `made` of a mapping are gone, where the process belongs to it. */
  ghost predicate Gone(f: File, made: map<Mapping, nat>, j: nat)
    requires j < |f.records|
  {
    Own(f, j) && Count(f.records, f.records[j].members, j) < Made(made, f.records[j].members)
  }

  /** The records that are left in a file. */
  ghost predicate Left(f: File, row: Row, made: map<Mapping, nat>) {
    && |row| == |f.records|
    && forall j | 0 <= j < |f.records| :: row[j] == if Gone(f, made, j) then None else Some(f.records[j])
  }

  function Made(made: map<Mapping, nat>, m: Mapping): nat { if m in made then made[m] else 0 }

  /** Takes the first record with the mapping out of the file of a member, if there is one. */
  method TakeFirst(row: Row, m: Mapping, ghost f: File, ghost made: map<Mapping, nat>)
      returns (found: Option<nat>, rest: Row)
    requires Left(f, row, made) && f.rank in m
    ensures Left(f, rest, made[m := Made(made, m) + 1])
    ensures found.Some? ==> Occurs(f.records, m, Made(made, m), found.value)
    ensures found.None? ==> Times(f, m) <= Made(made, m)
  {
    hide Left, Count;
    RowLength(f, row, made);
    for j := 0 to |row|
      invariant |row| == |f.records| && Count(f.records, m, j) <= Made(made, m)
    {
      RowEntry(f, row, made, j);
      NextCount(f.records, m, j);
      if row[j].Some? && row[j].value.members == m {
        rest := row[j := None];
        TakenOut(f, row, made, m, j);
        return Some(j), rest;
      }
    }
    NothingTaken(f, row, made, m);
    return None, row;
  }

  lemma {:induction false} RowLength(f: File, row: Row, made: map<Mapping, nat>)
    requires Left(f, row, made)
    ensures |row| == |f.records| && forall m :: Count(f.records, m, 0) == 0
  {
  }

  lemma {:induction false} RowEntry(f: File, row: Row, made: map<Mapping, nat>, j: nat)
    requires Left(f, row, made) && j < |f.records|
    ensures j < |row| && row[j] == if Gone(f, made, j) then None else Some(f.records[j])
  {
  }

  lemma {:induction false} NextCount(rs: seq<Record>, m: Mapping, j: nat)
    requires j < |rs|
    ensures Count(rs, m, j + 1) == Count(rs, m, j) + if rs[j].members == m then 1 else 0
  {
  }

  lemma {:induction false} TakenOut(f: File, row: Row, made: map<Mapping, nat>, m: Mapping, j: nat)
    requires Left(f, row, made) && Occurs(f.records, m, Made(made, m), j) && f.rank in m
    ensures Left(f, row[j := None], made[m := Made(made, m) + 1])
  {
    var rs := f.records;
    forall i | 0 <= i < |rs| && rs[i].members == m && i != j ensures Count(rs, m, i) != Made(made, m) {
      if Count(rs, m, i) == Made(made, m) {
        OneOccurrence(rs, m, Made(made, m), i, j);
      }
    }
  }

  /** A file that has no such occurrence, or whose process does not belong, stays as it is. */
  lemma {:induction false} NothingTaken(f: File, row: Row, made: map<Mapping, nat>, m: Mapping)
    requires Left(f, row, made) && (f.rank in m ==> Times(f, m) <= Made(made, m))
    ensures Left(f, row, made[m := Made(made, m) + 1])
  {
    forall i | 0 <= i < |f.records| && f.rank in m && f.records[i].members == m
      ensures Count(f.records, m, i) < Made(made, m)
    {
      CountGrows(f.records, m, i, |f.records|);
    }
  }

  ghost predicate AllLeft(fs: seq<File>, comms: seq<Row>, made: map<Mapping, nat>, from: nat, to: nat)
    requires from <= to <= |fs|
  {
    |comms| == |fs| && forall f | from <= f < to :: Left(fs[f], comms[f], made)
  }

  /** Collects one communicator: the first record left with its mapping, from every file of a member. */
  method CollectGroup(fs: seq<File>, rows: seq<Row>, m: Mapping, ghost made: map<Mapping, nat>)
      returns (entries: seq<Entry>, comms: seq<Row>)
    requires AllLeft(fs, rows, made, 0, |fs|)
    ensures AllLeft(fs, comms, made[m := Made(made, m) + 1], 0, |fs|)
    ensures Members(fs, m, Made(made, m), |fs|, entries)
  {
    hide Left, Times, Occurs, Members;
    assert Members(fs, m, Made(made, m), 0, []) by { NoMembers(fs, m, Made(made, m)); }
    ghost var next := made[m := Made(made, m) + 1];
    entries, comms := [], rows;
    for f := 0 to |fs|
      invariant AllLeft(fs, comms, next, 0, f) && AllLeft(fs, comms, made, f, |fs|)
      invariant Members(fs, m, Made(made, m), f, entries)
    {
      if fs[f].rank in m {
        var found, rest := TakeFirst(comms[f], m, fs[f], made);
        comms := comms[f := rest];
        if found.Some? {
          FoundIsRecord(fs[f].records, m, Made(made, m), found.value);
          ghost var before := entries;
          entries := entries + [Entry(f, found.value, fs[f].rank, m[fs[f].rank], fs[f].records[found.value].id)];
          OneMemberMore(fs, m, Made(made, m), f, before, entries[|entries| - 1]);
        } else {
          NoMemberMore(fs, m, Made(made, m), f, entries);
        }
      } else {
        NothingTaken(fs[f], comms[f], made, m);
        NoMemberMore(fs, m, Made(made, m), f, entries);
      }
    }
  }

  lemma {:induction false} FoundIsRecord(rs: seq<Record>, m: Mapping, k: nat, j: nat)
    requires Occurs(rs, m, k, j)
    ensures j < |rs| && rs[j].members == m
  {
  }

  lemma {:induction false} NoMembers(fs: seq<File>, m: Mapping, k: nat)
    ensures Members(fs, m, k, 0, [])
  {
  }

  lemma {:induction false} NoMemberMore(fs: seq<File>, m: Mapping, k: nat, f: nat, es: seq<Entry>)
    requires f < |fs| && Members(fs, m, k, f, es)
    requires fs[f].rank in m ==> Times(fs[f], m) <= k
    ensures Members(fs, m, k, f + 1, es)
  {
  }

  lemma {:induction false} OneMemberMore(fs: seq<File>, m: Mapping, k: nat, f: nat, es: seq<Entry>, e: Entry)
    requires f < |fs| && Members(fs, m, k, f, es)
    requires e.file == f && Occurs(fs[f].records, m, k, e.at) && fs[f].rank in m
    requires e.global == fs[f].rank && e.local == m[fs[f].rank] && e.cid == fs[f].records[e.at].id
    ensures Members(fs, m, k, f + 1, es + [e])
  {
    var all := es + [e];
    assert all[|es|].file == f;
    forall g | 0 <= g < f + 1 && k < Times(fs[g], m) && fs[g].rank in m ensures exists x | 0 <= x < |all| :: all[x].file == g {
      if g < f {
        var x :| 0 <= x < |es| && es[x].file == g;
        assert all[x].file == g;
      }
    }
  }

  // ---- All communicators ----

  /** Which occurrence a record is of which mapping. */
  function KeyOf(f: File, j: nat): (Mapping, nat)
    requires j < |f.records|
  {
    (f.records[j].members, Count(f.records, f.records[j].members, j))
  }

  /** One record comes before another one in the order of files and records. */
  predicate Earlier(a: (nat, nat), b: (nat, nat)) { a.0 < b.0 || (a.0 == b.0 && a.1 < b.1) }

  /** A record begins a group: the group has its name and stands for its mapping, and none of its entries
      comes before it. If its process belongs to the communicator the record is the group's first entry. */
  ghost predicate Begins(fs: seq<File>, at: (nat, nat), g: Group, key: (Mapping, nat)) {
    && at.0 < |fs| && at.1 < |fs[at.0].records|
    && var r := fs[at.0].records[at.1];
       && r.members == key.0 && r.name == g.name
       && (forall x | 0 <= x < |g.entries| :: !Earlier((g.entries[x].file, g.entries[x].at), at))
       && (Own(fs[at.0], at.1) ==>
             && KeyOf(fs[at.0], at.1) == key
             && g.entries != [] && g.entries[0].file == at.0 && g.entries[0].at == at.1)
  }

  /** The occurrence numbers of each mapping come in turn. */
  ghost predicate InTurn(keys: seq<(Mapping, nat)>) {
    forall g, k: nat | 0 <= g < |keys| && k < keys[g].1 :: (keys[g].0, k) in keys[..g]
  }

  lemma {:induction false} OneMoreInTurn(keys: seq<(Mapping, nat)>, made: map<Mapping, nat>, m: Mapping)
    requires InTurn(keys) && KeysAreMade(keys, made)
    ensures InTurn(keys + [(m, Made(made, m))])
  {
    var more := keys + [(m, Made(made, m))];
    forall g, k: nat | 0 <= g < |more| && k < more[g].1 ensures (more[g].0, k) in more[..g] {
      assert more[..g] == keys[..g];
      assert g == |keys| ==> keys[..g] == keys;
    }
  }

  /** One group for each key, and no key twice; each begun by a record of its own, in order. */
  ghost predicate Grouped(fs: seq<File>, groups: seq<Group>, keys: seq<(Mapping, nat)>, begins: seq<(nat, nat)>) {
    && |groups| == |keys| == |begins| && InTurn(keys)
    && (forall g | 0 <= g < |keys| :: Members(fs, keys[g].0, keys[g].1, |fs|, groups[g].entries))
    && (forall g, h | 0 <= g < h < |keys| :: keys[g] != keys[h])
    && (forall g | 0 <= g < |keys| :: Begins(fs, begins[g], groups[g], keys[g]))
    && (forall g, h | 0 <= g < h < |keys| :: Earlier(begins[g], begins[h]))
  }

  ghost predicate KeysAreMade(keys: seq<(Mapping, nat)>, made: map<Mapping, nat>) {
    forall key: (Mapping, nat) :: key in keys <==> key.1 < Made(made, key.0)
  }

  /** The first n records of a file belong to a group, or begin one if their process does not belong to the
      communicator that they describe. */
  ghost predicate RowGrouped(fs: seq<File>, keys: seq<(Mapping, nat)>, begins: seq<(nat, nat)>, f: nat, n: nat)
    requires f < |fs| && n <= |fs[f].records|
  {
    forall j | 0 <= j < n :: if Own(fs[f], j) then KeyOf(fs[f], j) in keys else (f, j) in begins
  }

  ghost predicate AllGrouped(fs: seq<File>, keys: seq<(Mapping, nat)>, begins: seq<(nat, nat)>, n: nat)
    requires n <= |fs|
  {
    forall f | 0 <= f < n :: RowGrouped(fs, keys, begins, f, |fs[f].records|)
  }

  /** All files before i and the first j records of file i have been dealt with. */
  ghost predicate Merged(fs: seq<File>, groups: seq<Group>, keys: seq<(Mapping, nat)>, begins: seq<(nat, nat)>,
                         made: map<Mapping, nat>, i: nat, j: nat)
    requires i < |fs| && j <= |fs[i].records|
  {
    && Grouped(fs, groups, keys, begins) && KeysAreMade(keys, made)
    && AllGrouped(fs, keys, begins, i) && RowGrouped(fs, keys, begins, i, j)
    && forall g | 0 <= g < |begins| :: Earlier(begins[g], (i, j))
  }

  /** The list of communicators: a record that is still there begins one. Each record is printed exactly
      once if its process belongs to the communicator, and never otherwise. */
  method CommunicatorList(fs: seq<File>)
      returns (groups: seq<Group>, ghost keys: seq<(Mapping, nat)>, ghost begins: seq<(nat, nat)>)
    ensures Grouped(fs, groups, keys, begins) && AllGrouped(fs, keys, begins, |fs|)
    ensures forall f, j | 0 <= f < |fs| && 0 <= j < |fs[f].records| ::
              if Own(fs[f], j) then PrintedOnce(groups, f, j) else NeverPrinted(groups, f, j)
  {
    hide Merged, Grouped, Gone, Members, Left, PrintedOnce, NeverPrinted;
    groups, keys, begins := [], [], [];
    ghost var made: map<Mapping, nat> := map[];
    var comms := Untouched(fs);
    for i := 0 to |fs|
      invariant AllLeft(fs, comms, made, 0, |fs|)
      invariant i == 0 ==> groups == [] && keys == [] && begins == [] && made == map[]
      invariant i > 0 ==> Merged(fs, groups, keys, begins, made, i - 1, |fs[i - 1].records|)
    {
      NextFile(fs, groups, keys, begins, made, i);
      for j := 0 to |fs[i].records|
        invariant AllLeft(fs, comms, made, 0, |fs|) && Merged(fs, groups, keys, begins, made, i, j)
      {
        RowEntry(fs[i], comms[i], made, j);
        if comms[i][j].Some? {
          var c := comms[i][j].value;
          var entries: seq<Entry>;
          entries, comms := CollectGroup(fs, comms, c.members, made);
          ghost var k := Made(made, c.members);
          OneGroupMore(fs, groups, keys, begins, made, i, j, entries);
          groups, keys, begins := groups + [Group(c.name, entries)], keys + [(c.members, k)], begins + [(i, j)];
          made := made[c.members := k + 1];
        } else {
          KeyIsIn(fs, groups, keys, begins, made, i, j);
        }
      }
    }
    AllMerged(fs, groups, keys, begins, made);
    forall f, j | 0 <= f < |fs| && 0 <= j < |fs[f].records|
      ensures if Own(fs[f], j) then PrintedOnce(groups, f, j) else NeverPrinted(groups, f, j)
    {
      RecordIsPrinted(fs, groups, keys, begins, f, j);
    }
  }

  lemma {:induction false} NextFile(fs: seq<File>, groups: seq<Group>, keys: seq<(Mapping, nat)>, begins: seq<(nat, nat)>,
                                    made: map<Mapping, nat>, i: nat)
    requires i < |fs|
    requires i == 0 ==> groups == [] && keys == [] && begins == [] && made == map[]
    requires i > 0 ==> Merged(fs, groups, keys, begins, made, i - 1, |fs[i - 1].records|)
    ensures Merged(fs, groups, keys, begins, made, i, 0)
  {
    hide KeyOf, Own, Begins, Members;
    assert RowGrouped(fs, keys, begins, i, 0);
  }

  lemma {:induction false} AllMerged(fs: seq<File>, groups: seq<Group>, keys: seq<(Mapping, nat)>, begins: seq<(nat, nat)>,
                                     made: map<Mapping, nat>)
    requires fs == [] ==> groups == [] && keys == [] && begins == []
    requires fs != [] ==> Merged(fs, groups, keys, begins, made, |fs| - 1, |fs[|fs| - 1].records|)
    ensures Grouped(fs, groups, keys, begins) && AllGrouped(fs, keys, begins, |fs|)
  {
    hide KeyOf, Own, Begins, Members;
  }

  /** A record that is still there begins the next group. */
  lemma {:induction false} OneGroupMore(fs: seq<File>, groups: seq<Group>, keys: seq<(Mapping, nat)>, begins: seq<(nat, nat)>,
                                        made: map<Mapping, nat>, i: nat, j: nat, es: seq<Entry>)
    requires i < |fs| && j < |fs[i].records| && Merged(fs, groups, keys, begins, made, i, j) && !Gone(fs[i], made, j)
    requires var m := fs[i].records[j].members; Members(fs, m, Made(made, m), |fs|, es)
    ensures var r := fs[i].records[j];
      var k := Made(made, r.members);
      Merged(fs, groups + [Group(r.name, es)], keys + [(r.members, k)], begins + [(i, j)], made[r.members := k + 1], i, j + 1)
  {
    var r := fs[i].records[j];
    var key := (r.members, Made(made, r.members));
    RowKey(fs, i, j, keys, begins, made);
    BeginsHere(fs, keys, begins, i, j, es, r.name, key);
    OneMoreInTurn(keys, made, r.members);
    OneKeyMore(keys, made, r.members);
    OneRecordMore(fs, keys, begins, key, i, j);
    hide Members, KeyOf, Begins, Own, RowGrouped, AllGrouped, KeysAreMade, InTurn, Gone;
  }

  method Untouched(fs: seq<File>) returns (comms: seq<Row>)
    ensures AllLeft(fs, comms, map[], 0, |fs|)
  {
    comms := [];
    for f := 0 to |fs|
      invariant |comms| == f && forall i | 0 <= i < f :: Left(fs[i], comms[i], map[])
    {
      comms := comms + [seq(|fs[f].records|, j requires 0 <= j < |fs[f].records| => Some(fs[f].records[j]))];
    }
  }

  lemma {:induction false} KeyIsIn(fs: seq<File>, groups: seq<Group>, keys: seq<(Mapping, nat)>, begins: seq<(nat, nat)>,
                                   made: map<Mapping, nat>, i: nat, j: nat)
    requires i < |fs| && j < |fs[i].records| && Merged(fs, groups, keys, begins, made, i, j) && Gone(fs[i], made, j)
    ensures Merged(fs, groups, keys, begins, made, i, j + 1)
  {
    hide Grouped, AllGrouped;
    assert KeyOf(fs[i], j) in keys;
  }

  lemma {:induction false} OneRecordMore(fs: seq<File>, keys: seq<(Mapping, nat)>, begins: seq<(nat, nat)>,
                                         key: (Mapping, nat), i: nat, j: nat)
    requires i < |fs| && j < |fs[i].records| && AllGrouped(fs, keys, begins, i) && RowGrouped(fs, keys, begins, i, j)
    requires Own(fs[i], j) ==> KeyOf(fs[i], j) == key
    ensures AllGrouped(fs, keys + [key], begins + [(i, j)], i)
    ensures RowGrouped(fs, keys + [key], begins + [(i, j)], i, j + 1)
  {
    hide KeyOf;
    forall f | 0 <= f < i ensures RowGrouped(fs, keys + [key], begins + [(i, j)], f, |fs[f].records|) {
      assert RowGrouped(fs, keys, begins, f, |fs[f].records|);
    }
  }

  lemma {:induction false} RowIsMade(fs: seq<File>, keys: seq<(Mapping, nat)>, begins: seq<(nat, nat)>,
                                     made: map<Mapping, nat>, i: nat, n: nat, j: nat)
    requires i < |fs| && j < n <= |fs[i].records| && RowGrouped(fs, keys, begins, i, n) && KeysAreMade(keys, made)
    requires Own(fs[i], j)
    ensures Count(fs[i].records, fs[i].records[j].members, j) < Made(made, fs[i].records[j].members)
  {
    assert KeyOf(fs[i], j) in keys;
  }

  /** A record that is still there when its turn comes is the first one left with its mapping, if its process
      belongs to it. */
  lemma {:induction false} RowKey(fs: seq<File>, i: nat, j: nat, keys: seq<(Mapping, nat)>, begins: seq<(nat, nat)>,
                                  made: map<Mapping, nat>)
    requires i < |fs| && j < |fs[i].records| && RowGrouped(fs, keys, begins, i, j) && KeysAreMade(keys, made)
    requires !Gone(fs[i], made, j)
    ensures var m := fs[i].records[j].members;
      && (Own(fs[i], j) ==> KeyOf(fs[i], j) == (m, Made(made, m)))
      && (m, Made(made, m)) !in keys
  {
    var f, m := fs[i], fs[i].records[j].members;
    if Own(f, j) && Count(f.records, m, j) > Made(made, m) {
      var before := FindOccurrence(f.records, m, Made(made, m), j);
      RowIsMade(fs, keys, begins, made, i, j, before);
    }
  }

  lemma {:induction false} KeyInRow(fs: seq<File>, keys: seq<(Mapping, nat)>, begins: seq<(nat, nat)>, f: nat, n: nat,
                                    key: (Mapping, nat), j: nat)
    requires f < |fs| && j < n <= |fs[f].records| && RowGrouped(fs, keys, begins, f, n)
    requires Occurs(fs[f].records, key.0, key.1, j) && fs[f].rank in key.0
    ensures key in keys
  {
    assert Own(fs[f], j) && KeyOf(fs[f], j) == key;
  }

  /** No earlier record is an entry, so the record that begins a group is its first entry or none. */
  lemma {:induction false} BeginsHere(fs: seq<File>, keys: seq<(Mapping, nat)>, begins: seq<(nat, nat)>, i: nat, j: nat,
                                      es: seq<Entry>, name: string, key: (Mapping, nat))
    requires i < |fs| && j < |fs[i].records|
    requires AllGrouped(fs, keys, begins, i) && RowGrouped(fs, keys, begins, i, j)
    requires name == fs[i].records[j].name && key.0 == fs[i].records[j].members
    requires Own(fs[i], j) ==> KeyOf(fs[i], j) == key
    requires key !in keys && Members(fs, key.0, key.1, |fs|, es)
    ensures Begins(fs, (i, j), Group(name, es), key)
  {
    hide AllGrouped;
    forall x | 0 <= x < |es| ensures !Earlier((es[x].file, es[x].at), (i, j)) {
      var f := es[x].file;
      assert Occurs(fs[f].records, key.0, key.1, es[x].at) && fs[f].rank in key.0;
      if f < i {
        EarlierKey(fs, keys, begins, i, f, key, es[x].at);
      } else if f == i && es[x].at < j {
        KeyInRow(fs, keys, begins, i, j, key, es[x].at);
      }
    }
    if Own(fs[i], j) {
      var x := RecordInGroup(fs, es, i, j);
      assert es[0].file <= es[x].file;
      OneOccurrence(fs[i].records, key.0, key.1, es[x].at, j);
    }
  }

  lemma {:induction false} EarlierKey(fs: seq<File>, keys: seq<(Mapping, nat)>, begins: seq<(nat, nat)>, i: nat, f: nat,
                                      key: (Mapping, nat), j: nat)
    requires f < i <= |fs| && AllGrouped(fs, keys, begins, i) && Occurs(fs[f].records, key.0, key.1, j)
    requires fs[f].rank in key.0
    ensures key in keys
  {
    assert RowGrouped(fs, keys, begins, f, |fs[f].records|);
    KeyInRow(fs, keys, begins, f, |fs[f].records|, key, j);
  }

  lemma {:induction false} OneKeyMore(keys: seq<(Mapping, nat)>, made: map<Mapping, nat>, m: Mapping)
    requires KeysAreMade(keys, made)
    ensures KeysAreMade(keys + [(m, Made(made, m))], made[m := Made(made, m) + 1])
  {
    var more, next := keys + [(m, Made(made, m))], made[m := Made(made, m) + 1];
    forall key: (Mapping, nat) ensures key in more <==> key.1 < Made(next, key.0) {
      assert key in more <==> key in keys || key == (m, Made(made, m));
    }
  }

  // ---- What the list means ----

  /** A group has a record as an entry. */
  ghost predicate Holds(g: Group, f: nat, j: nat) {
    exists x | 0 <= x < |g.entries| :: g.entries[x].file == f && g.entries[x].at == j
  }

  /** Exactly one entry of exactly one group is the record. */
  ghost predicate PrintedOnce(groups: seq<Group>, f: nat, j: nat) {
    exists g | 0 <= g < |groups| ::
      && Holds(groups[g], f, j)
      && (forall h | 0 <= h < |groups| && Holds(groups[h], f, j) :: h == g)
      && (forall x, y | 0 <= x < y < |groups[g].entries| :: groups[g].entries[x].file != groups[g].entries[y].file)
  }

  ghost predicate NeverPrinted(groups: seq<Group>, f: nat, j: nat) {
    forall g | 0 <= g < |groups| :: !Holds(groups[g], f, j)
  }

  /** A record is printed exactly when its process belongs to the communicator, and then once; the group has
      the record's mapping and occurrence number. */
  lemma {:induction false} EveryRecordOnce(fs: seq<File>, groups: seq<Group>, keys: seq<(Mapping, nat)>,
                                           begins: seq<(nat, nat)>, f: nat, j: nat)
    requires Grouped(fs, groups, keys, begins) && AllGrouped(fs, keys, begins, |fs|)
    requires f < |fs| && j < |fs[f].records|
    ensures Own(fs[f], j) <==> PrintedOnce(groups, f, j)
    ensures !Own(fs[f], j) <==> NeverPrinted(groups, f, j)
    ensures forall g | 0 <= g < |groups| :: Holds(groups[g], f, j) <==> Own(fs[f], j) && keys[g] == KeyOf(fs[f], j)
  {
    hide KeyOf, Begins;
    RecordIsPrinted(fs, groups, keys, begins, f, j);
    if Own(fs[f], j) {
      var g :| 0 <= g < |groups| && Holds(groups[g], f, j);
      HolderHasKey(fs, groups, keys, begins, f, j, g);
      forall h | 0 <= h < |groups| ensures Holds(groups[h], f, j) <==> keys[h] == KeyOf(fs[f], j) {
        if Holds(groups[h], f, j) {
          HolderHasKey(fs, groups, keys, begins, f, j, h);
        }
        SameKey(fs, groups, keys, begins, g, h);
      }
    }
  }

  lemma {:induction false} RecordIsPrinted(fs: seq<File>, groups: seq<Group>, keys: seq<(Mapping, nat)>,
                                           begins: seq<(nat, nat)>, f: nat, j: nat)
    requires Grouped(fs, groups, keys, begins) && AllGrouped(fs, keys, begins, |fs|)
    requires f < |fs| && j < |fs[f].records|
    ensures if Own(fs[f], j) then PrintedOnce(groups, f, j) else NeverPrinted(groups, f, j)
  {
    hide KeyOf, Begins, InTurn, Members, AllGrouped;
    forall h | 0 <= h < |groups| && Holds(groups[h], f, j) ensures Own(fs[f], j) && keys[h] == KeyOf(fs[f], j) {
      HolderHasKey(fs, groups, keys, begins, f, j, h);
    }
    if Own(fs[f], j) {
      var g := GroupOf(fs, groups, keys, begins, f, j);
      var x := RecordInGroup(fs, groups[g].entries, f, j);
      assert groups[g].entries[x].file == f && groups[g].entries[x].at == j;
      forall h | 0 <= h < |groups| && Holds(groups[h], f, j) ensures h == g {
        SameKey(fs, groups, keys, begins, g, h);
      }
    }
  }

  lemma {:induction false} GroupOf(fs: seq<File>, groups: seq<Group>, keys: seq<(Mapping, nat)>,
                                   begins: seq<(nat, nat)>, f: nat, j: nat) returns (g: nat)
    requires Grouped(fs, groups, keys, begins) && AllGrouped(fs, keys, begins, |fs|)
    requires f < |fs| && j < |fs[f].records| && Own(fs[f], j)
    ensures g < |groups| && keys[g] == KeyOf(fs[f], j)
    ensures Members(fs, keys[g].0, keys[g].1, |fs|, groups[g].entries)
    ensures forall x, y | 0 <= x < y < |groups[g].entries| :: groups[g].entries[x].file != groups[g].entries[y].file
  {
    hide Begins, KeyOf, InTurn;
    assert RowGrouped(fs, keys, begins, f, |fs[f].records|);
    g :| 0 <= g < |keys| && keys[g] == KeyOf(fs[f], j);
  }

  lemma {:induction false} HolderHasKey(fs: seq<File>, groups: seq<Group>, keys: seq<(Mapping, nat)>,
                                        begins: seq<(nat, nat)>, f: nat, j: nat, h: nat)
    requires Grouped(fs, groups, keys, begins) && h < |groups|
    requires f < |fs| && j < |fs[f].records| && Holds(groups[h], f, j)
    ensures Own(fs[f], j) && keys[h] == KeyOf(fs[f], j)
  {
    var y :| 0 <= y < |groups[h].entries| && groups[h].entries[y].file == f && groups[h].entries[y].at == j;
    assert Occurs(fs[f].records, keys[h].0, keys[h].1, j);
  }

  lemma {:induction false} SameKey(fs: seq<File>, groups: seq<Group>, keys: seq<(Mapping, nat)>,
                                   begins: seq<(nat, nat)>, g: nat, h: nat)
    requires Grouped(fs, groups, keys, begins) && g < |keys| && h < |keys|
    ensures keys[g] == keys[h] ==> g == h
  {
    if g < h {
      assert keys[g] != keys[h];
    } else if h < g {
      assert keys[h] != keys[g];
    }
  }

  lemma {:induction false} RecordInGroup(fs: seq<File>, es: seq<Entry>, f: nat, j: nat) returns (x: nat)
    requires f < |fs| && j < |fs[f].records| && Own(fs[f], j)
    requires Members(fs, KeyOf(fs[f], j).0, KeyOf(fs[f], j).1, |fs|, es)
    ensures x < |es| && es[x].file == f && es[x].at == j
  {
    var rs := fs[f].records;
    var m, k := rs[j].members, Count(rs, rs[j].members, j);
    CountGrows(rs, m, j, |rs|);
    assert k < Times(fs[f], m);
    x :| 0 <= x < |es| && es[x].file == f;
    OneOccurrence(rs, m, k, es[x].at, j);
  }

  /** Every member of a mapping has one file, and all of them have it equally often. */
  ghost predicate Even(fs: seq<File>, m: Mapping, times: nat) {
    && (forall f, h | 0 <= f < h < |fs| :: fs[f].rank != fs[h].rank)
    && (forall r | r in m :: exists f | 0 <= f < |fs| :: fs[f].rank == r)
    && (forall f | 0 <= f < |fs| && fs[f].rank in m :: Times(fs[f], m) == times)
  }

  /** Then each of its groups has exactly one entry for every member, and there is one group for each time. */
  lemma {:induction false} OneEntryPerMember(fs: seq<File>, m: Mapping, times: nat, k: nat, es: seq<Entry>)
    requires Even(fs, m, times) && k < times && Members(fs, m, k, |fs|, es)
    ensures forall r | r in m :: exists x | 0 <= x < |es| :: es[x].global == r && es[x].local == m[r]
    ensures forall x, y | 0 <= x < y < |es| :: es[x].global != es[y].global
    ensures forall x | 0 <= x < |es| :: es[x].global in m
  {
    forall r | r in m ensures exists x | 0 <= x < |es| :: es[x].global == r && es[x].local == m[r] {
      var f :| 0 <= f < |fs| && fs[f].rank == r;
      assert k < Times(fs[f], m);
      var x :| 0 <= x < |es| && es[x].file == f;
      assert es[x].global == r;
    }
    forall x, y | 0 <= x < y < |es| ensures es[x].global != es[y].global {
      assert es[x].file < es[y].file;
      assert es[x].global == fs[es[x].file].rank && es[y].global == fs[es[y].file].rank;
    }
  }

  /** Only processes that belong to a communicator describe it. */
  ghost predicate OnlyOwn(fs: seq<File>, m: Mapping) {
    forall f, j | 0 <= f < |fs| && 0 <= j < |fs[f].records| && fs[f].records[j].members == m :: Own(fs[f], j)
  }

  lemma {:induction false} KeysOfMapping(fs: seq<File>, groups: seq<Group>, keys: seq<(Mapping, nat)>,
                                         begins: seq<(nat, nat)>, m: Mapping, times: nat, k: nat)
    requires Grouped(fs, groups, keys, begins) && AllGrouped(fs, keys, begins, |fs|)
    requires Even(fs, m, times) && OnlyOwn(fs, m) && m != map[]
    ensures (m, k) in keys <==> k < times
  {
    if (m, k) in keys {
      var g :| 0 <= g < |keys| && keys[g] == (m, k);
      assert Begins(fs, begins[g], groups[g], keys[g]);
      var f, j := fs[begins[g].0], begins[g].1;
      CountGrows(f.records, m, j, |f.records|);
    }
    if k < times {
      var r :| r in m;
      var f :| 0 <= f < |fs| && fs[f].rank == r;
      var j := FindOccurrence(fs[f].records, m, k, |fs[f].records|);
      EarlierKey(fs, keys, begins, |fs|, f, (m, k), j);
    }
  }

  // ---- The order of the files does not matter ----

  /** An entry without the place of its file. */
  ghost predicate Names(g: Group, global: string, at: nat, cid: string) {
    exists x | 0 <= x < |g.entries| :: g.entries[x].global == global && g.entries[x].at == at && g.entries[x].cid == cid
  }

  /** Two orders of the same files. */
  ghost predicate SameFiles(a: seq<File>, b: seq<File>) { forall f: File :: f in a <==> f in b }

  /** Whatever order the files come in, there are the same groups with the same entries, but for groups
      without entries. */
  lemma {:induction false} OrderIsIrrelevant(a: seq<File>, ga: seq<Group>, ka: seq<(Mapping, nat)>, ba: seq<(nat, nat)>,
                                             b: seq<File>, gb: seq<Group>, kb: seq<(Mapping, nat)>, bb: seq<(nat, nat)>,
                                             g: nat) returns (h: nat)
    requires Grouped(a, ga, ka, ba) && AllGrouped(a, ka, ba, |a|)
    requires Grouped(b, gb, kb, bb) && AllGrouped(b, kb, bb, |b|)
    requires SameFiles(a, b) && g < |ga| && ga[g].entries != []
    ensures h < |gb| && kb[h] == ka[g]
    ensures forall r, j, c :: Names(ga[g], r, j, c) <==> Names(gb[h], r, j, c)
  {
    hide Begins, AllGrouped;
    var key, e := ka[g], ga[g].entries[0];
    assert Occurs(a[e.file].records, key.0, key.1, e.at) && a[e.file].rank in key.0;
    assert a[e.file] in b;
    var i :| 0 <= i < |b| && b[i] == a[e.file];
    EarlierKey(b, kb, bb, |b|, i, key, e.at);
    h :| 0 <= h < |kb| && kb[h] == key;
    forall r, j, c ensures Names(ga[g], r, j, c) <==> Names(gb[h], r, j, c) {
      if Names(ga[g], r, j, c) {
        SameNames(a, b, key.0, key.1, ga[g], gb[h], r, j, c);
      }
      if Names(gb[h], r, j, c) {
        SameNames(b, a, key.0, key.1, gb[h], ga[g], r, j, c);
      }
    }
  }

  /** All records of a mapping give it one name. */
  ghost predicate OneName(fs: seq<File>, m: Mapping, name: string) {
    forall f, j | 0 <= f < |fs| && 0 <= j < |fs[f].records| && fs[f].records[j].members == m :: fs[f].records[j].name == name
  }

  /** The printed name comes from the record that begins the group: in every order of the files it is the same
      when all records of the mapping agree on it. */
  lemma {:induction false} NameOfGroup(fs: seq<File>, groups: seq<Group>, keys: seq<(Mapping, nat)>,
                                       begins: seq<(nat, nat)>, g: nat, name: string)
    requires Grouped(fs, groups, keys, begins) && g < |groups| && OneName(fs, keys[g].0, name)
    ensures groups[g].name == name
  {
    assert Begins(fs, begins[g], groups[g], keys[g]);
  }

  /** With two members' files of one record each for the same communicator it is the first file's name. */
  lemma {:induction false} NameOfFirst(fs: seq<File>, groups: seq<Group>, keys: seq<(Mapping, nat)>, begins: seq<(nat, nat)>)
    requires |fs| == 2 && |fs[0].records| == 1 == |fs[1].records| && Own(fs[0], 0) && Own(fs[1], 0)
    requires fs[0].records[0].members == fs[1].records[0].members
    requires Grouped(fs, groups, keys, begins) && AllGrouped(fs, keys, begins, 2)
    ensures |groups| == 1 && groups[0].name == fs[0].records[0].name
  {
    var g := BegunInTime(fs, groups, keys, begins, 0, 0);
    hide Grouped, AllGrouped, InTurn, Members;
    BegunBy(fs, groups, keys, begins, g);
    FirstKey(fs[0]);
    FirstKey(fs[1]);
    if |groups| > 1 {
      var other := if g == 0 then 1 else 0;
      BegunBy(fs, groups, keys, begins, other);
      SameKey(fs, groups, keys, begins, g, other);
    }
    NamedBy(fs, groups, keys, begins, g);
  }

  lemma {:induction false} NamedBy(fs: seq<File>, groups: seq<Group>, keys: seq<(Mapping, nat)>,
                                   begins: seq<(nat, nat)>, g: nat)
    requires Grouped(fs, groups, keys, begins) && g < |groups|
    ensures begins[g].0 < |fs| && begins[g].1 < |fs[begins[g].0].records|
    ensures groups[g].name == fs[begins[g].0].records[begins[g].1].name
  {
    assert Begins(fs, begins[g], groups[g], keys[g]);
  }

  /** A group without entries is begun by a process that does not belong to it. */
  lemma {:induction false} EmptyGroups(fs: seq<File>, groups: seq<Group>, keys: seq<(Mapping, nat)>,
                                       begins: seq<(nat, nat)>, g: nat)
    requires Grouped(fs, groups, keys, begins) && g < |groups|
    ensures OnlyOwn(fs, keys[g].0) ==> groups[g].entries != []
  {
    assert Begins(fs, begins[g], groups[g], keys[g]);
  }

  /** A record is not printed in a group that begins behind it. */
  lemma {:induction false} BegunInTime(fs: seq<File>, groups: seq<Group>, keys: seq<(Mapping, nat)>,
                                       begins: seq<(nat, nat)>, f: nat, j: nat) returns (g: nat)
    requires Grouped(fs, groups, keys, begins) && AllGrouped(fs, keys, begins, |fs|)
    requires f < |fs| && j < |fs[f].records| && Own(fs[f], j)
    ensures g < |groups| && keys[g] == KeyOf(fs[f], j) && !Earlier((f, j), begins[g])
  {
    g := GroupOf(fs, groups, keys, begins, f, j);
    hide KeyOf, Members, InTurn;
    var x := RecordInGroup(fs, groups[g].entries, f, j);
    assert Begins(fs, begins[g], groups[g], keys[g]);
  }

  lemma {:induction false} StrangerBegins(fs: seq<File>, groups: seq<Group>, keys: seq<(Mapping, nat)>,
                                          begins: seq<(nat, nat)>, f: nat, j: nat) returns (g: nat)
    requires Grouped(fs, groups, keys, begins) && AllGrouped(fs, keys, begins, |fs|)
    requires f < |fs| && j < |fs[f].records| && !Own(fs[f], j)
    ensures g < |groups| && begins[g] == (f, j)
  {
    hide KeyOf, Members, InTurn, Begins;
    assert RowGrouped(fs, keys, begins, f, |fs[f].records|);
    g :| 0 <= g < |begins| && begins[g] == (f, j);
  }

  /** Two processes describe the same communicator, and only one of them belongs to it. */
  predicate OneStranger(fs: seq<File>, own: nat) {
    && own < 2 == |fs| && |fs[0].records| == 1 == |fs[1].records|
    && fs[0].records[0].members == fs[1].records[0].members
    && Own(fs[own], 0) && !Own(fs[1 - own], 0)
  }

  lemma {:induction false} FirstKey(f: File)
    requires |f.records| == 1
    ensures KeyOf(f, 0) == (f.records[0].members, 0)
  {
  }

  lemma {:induction false} AtMostTwo(begins: seq<(nat, nat)>)
    requires forall g, h | 0 <= g < h < |begins| :: Earlier(begins[g], begins[h])
    requires forall g | 0 <= g < |begins| :: begins[g].0 < 2 && begins[g].1 == 0
    ensures |begins| <= 2
    ensures |begins| == 2 ==> begins == [(0, 0), (1, 0)]
  {
    if |begins| >= 2 {
      assert Earlier(begins[0], begins[1]);
      assert |begins| > 2 ==> Earlier(begins[1], begins[2]);
    }
  }

  lemma {:induction false} FirstInTurn(keys: seq<(Mapping, nat)>)
    requires InTurn(keys) && keys != []
    ensures keys[0].1 == 0
  {
    assert (keys[0].0, 0) !in keys[..0];
  }

  lemma {:induction false} BegunBy(fs: seq<File>, groups: seq<Group>, keys: seq<(Mapping, nat)>,
                                   begins: seq<(nat, nat)>, g: nat)
    requires Grouped(fs, groups, keys, begins) && g < |groups|
    ensures |keys| == |begins| == |groups| && InTurn(keys)
    ensures begins[g].0 < |fs| && begins[g].1 < |fs[begins[g].0].records|
    ensures fs[begins[g].0].records[begins[g].1].members == keys[g].0
    ensures Own(fs[begins[g].0], begins[g].1) ==> KeyOf(fs[begins[g].0], begins[g].1) == keys[g]
  {
    hide KeyOf, Own, InTurn, Members;
    assert Begins(fs, begins[g], groups[g], keys[g]);
  }

  lemma {:induction false} InOrder(fs: seq<File>, groups: seq<Group>, keys: seq<(Mapping, nat)>, begins: seq<(nat, nat)>)
    requires Grouped(fs, groups, keys, begins)
    ensures forall g, h | 0 <= g < h < |begins| :: Earlier(begins[g], begins[h])
  {
    hide Begins, InTurn, Members, Earlier;
  }

  /** Then the order of the files decides whether there is a second group, without entries. */
  lemma {:induction false} OrderOfStrangers(fs: seq<File>, own: nat, groups: seq<Group>, keys: seq<(Mapping, nat)>,
                                            begins: seq<(nat, nat)>)
    requires OneStranger(fs, own) && Grouped(fs, groups, keys, begins) && AllGrouped(fs, keys, begins, 2)
    ensures |groups| == if own == 0 then 2 else 1
  {
    hide Grouped, AllGrouped, KeyOf, InTurn;
    var g := BegunInTime(fs, groups, keys, begins, own, 0);
    var h := StrangerBegins(fs, groups, keys, begins, 1 - own, 0);
    BegunBy(fs, groups, keys, begins, g);
    InOrder(fs, groups, keys, begins);
    forall x | 0 <= x < |groups| ensures begins[x].0 < 2 && begins[x].1 == 0 && keys[x].0 == fs[0].records[0].members {
      BegunBy(fs, groups, keys, begins, x);
    }
    AtMostTwo(begins);
    FirstInTurn(keys);
    FirstKey(fs[own]);
    if |groups| == 2 {
      BegunBy(fs, groups, keys, begins, 1);
      SameKey(fs, groups, keys, begins, 0, 1);
    }
  }

  lemma {:induction false} SameNames(a: seq<File>, b: seq<File>, m: Mapping, k: nat, x: Group, y: Group, r: string, j: nat, c: string)
    requires Members(a, m, k, |a|, x.entries) && Members(b, m, k, |b|, y.entries)
    requires SameFiles(a, b) && Names(x, r, j, c)
    ensures Names(y, r, j, c)
  {
    var n :| 0 <= n < |x.entries| && x.entries[n].global == r && x.entries[n].at == j && x.entries[n].cid == c;
    var f := a[x.entries[n].file];
    assert f in a;
    var i :| 0 <= i < |b| && b[i] == f;
    CountGrows(f.records, m, j, |f.records|);
    assert k < Times(b[i], m);
    var p :| 0 <= p < |y.entries| && y.entries[p].file == i;
    OneOccurrence(f.records, m, k, y.entries[p].at, j);
    assert y.entries[p].global == r && y.entries[p].at == j && y.entries[p].cid == c;
  }
}
