/** How the settings manager packs a table of permission rows into the settings, replacing the row that
    was entered for a whole group by one for each of its ranks (DomainServerSettingsManager.cpp). */
module GroupPermissions {
  import opened Collections

  type Uuid = nat   // 0 is the null UUID

  datatype Permission =
    | CanConnectToDomain | CanAdjustLocks | CanRezPermanentEntities | CanRezTemporaryEntities
    | CanWriteToAssetServer | CanConnectPastMaxCapacity | CanKick | CanReplaceDomainContent
    | CanGetAndSetPrivateUserData | CanRezAvatarEntities | CanViewAssetURLs

  // NodePermissionsKey; the name is in lower case.
  datatype Key = Key(name: string, rank: Uuid)

  // NodePermissions; its ID and rank are those of its key.
  datatype Row = Row(groupIDSet: bool, groupID: Uuid, permissions: set<Permission>)

  // The variant map of a row. An absent field is None.
  datatype Variant = Variant(id: string, groupID: Option<Uuid>, rankID: Option<Uuid>, permissions: set<Permission>)

  const OWNER_ORDER := 0
  const DEFAULT_ORDER := -1

  datatype Ranks = Ranks(groupIDs: map<string, Uuid>, orders: map<Uuid, map<Uuid, int>>) {
    // A group or rank that is not known counts as a rank that is not the owner's.
    function Order(k: Key): int {
      var group := if k.name in groupIDs then groupIDs[k.name] else 0;
      if group in orders && k.rank in orders[group] then orders[group][k.rank] else DEFAULT_ORDER
    }
  }

  // ---------- what packing makes of the rows ----------

  predicate HasRanks(rows: map<Key, Row>, name: string) {
    exists k :: k in rows && k.name == name && k.rank != 0
  }

  predicate Distinct(keys: seq<Key>) {
    forall i, j :: 0 <= i < j < |keys| ==> keys[i] != keys[j]
  }

  // A row without a rank for a group that has ranks.
  predicate Initial(rows: map<Key, Row>, k: Key) {
    k in rows && k.rank == 0 && rows[k].groupIDSet && HasRanks(rows, k.name)
  }

  // The rows after the initial rows in `gone` were handed down to the ranks of their groups.
  function HandedDown(rows: map<Key, Row>, ranks: Ranks, gone: set<Key>): map<Key, Row> {
    map k | k in rows && k !in gone ::
      if Key(k.name, 0) in gone * rows.Keys && ranks.Order(k) != OWNER_ORDER
      then rows[k].(permissions := rows[Key(k.name, 0)].permissions) else rows[k]
  }

  // The rows after the permissions of a group's initial row replaced those of its ranks.
  function Initialized(rows: map<Key, Row>, ranks: Ranks, groupName: string, permissions: set<Permission>):
    map<Key, Row>
  {
    map k | k in rows ::
      if k.name == groupName && ranks.Order(k) != OWNER_ORDER then rows[k].(permissions := permissions) else rows[k]
  }

  // Each step of the rewriting: the next initial row is handed down as it was entered.
  lemma HandDownOne(rows: map<Key, Row>, ranks: Ranks, gone: set<Key>, k: Key)
    requires k in rows && k.rank == 0 && k !in gone && forall g :: g in gone ==> g.rank == 0
    ensures k in HandedDown(rows, ranks, gone) && HandedDown(rows, ranks, gone)[k] == rows[k]
    ensures HandedDown(rows, ranks, gone + {k}) ==
      Initialized(HandedDown(rows, ranks, gone) - {k}, ranks, k.name, rows[k].permissions)
  {
  }

  function InitialAmong(rows: map<Key, Row>, keys: seq<Key>): set<Key> {
    set k | k in keys && Initial(rows, k)
  }

  lemma InitialAmongNext(rows: map<Key, Row>, keys: seq<Key>, i: nat)
    requires Distinct(keys) && i < |keys|
    ensures Initial(rows, keys[i]) ==> InitialAmong(rows, keys[..i + 1]) == InitialAmong(rows, keys[..i]) + {keys[i]}
    ensures !Initial(rows, keys[i]) ==> InitialAmong(rows, keys[..i + 1]) == InitialAmong(rows, keys[..i])
    ensures keys[i] !in InitialAmong(rows, keys[..i])
  {
  }

  lemma StillThere(rows: map<Key, Row>, ranks: Ranks, gone: set<Key>, k: Key)
    requires k in rows && k !in gone
    ensures k in HandedDown(rows, ranks, gone) && HandedDown(rows, ranks, gone)[k].groupIDSet == rows[k].groupIDSet
  {
  }

  function InitialRows(rows: map<Key, Row>): set<Key> {
    set k | k in rows && Initial(rows, k)
  }

  function Settled(rows: map<Key, Row>, ranks: Ranks): map<Key, Row> {
    HandedDown(rows, ranks, InitialRows(rows))
  }

  /** The rows after packing, whatever order they were visited in: a group with ranks has no row without
      a rank; its rows, except the owner's, have exactly the permissions of the row that was removed; no
      other row changes, none is added, and no row changes its group. */
  lemma SettledIs(rows: map<Key, Row>, ranks: Ranks, k: Key)
    requires k in rows
    ensures k in Settled(rows, ranks) <==> !(k.rank == 0 && rows[k].groupIDSet && HasRanks(rows, k.name))
    ensures k in Settled(rows, ranks) ==>
      && Settled(rows, ranks).Keys <= rows.Keys
      && Settled(rows, ranks)[k].groupID == rows[k].groupID && Settled(rows, ranks)[k].groupIDSet == rows[k].groupIDSet
      && (Settled(rows, ranks)[k].permissions ==
        if k.rank != 0 && ranks.Order(k) != OWNER_ORDER && Key(k.name, 0) in rows && rows[Key(k.name, 0)].groupIDSet
        then rows[Key(k.name, 0)].permissions else rows[k].permissions)
  {
  }

  /** The row of a rank that has order 0 in its group, which is the owner's, is kept as it was. Every other row with
      a rank has the permissions of the group's row without one, if there is such a row. */
  lemma OwnerRowIsKept(rows: map<Key, Row>, ranks: Ranks, k: Key, group: Uuid)
    requires k in rows && k.rank != 0 && rows[k].groupIDSet
    requires group == if k.name in ranks.groupIDs then ranks.groupIDs[k.name] else 0
    ensures k in Settled(rows, ranks)
    ensures var owner := group in ranks.orders && k.rank in ranks.orders[group] && ranks.orders[group][k.rank] == 0;
      Settled(rows, ranks)[k].permissions ==
        if !owner && Key(k.name, 0) in rows && rows[Key(k.name, 0)].groupIDSet then rows[Key(k.name, 0)].permissions
        else rows[k].permissions
  {
    SettledIs(rows, ranks, k);
  }

  /** Packing what was packed changes nothing. */
  lemma SettledOnce(rows: map<Key, Row>, ranks: Ranks)
    ensures InitialRows(Settled(rows, ranks)) == {}
    ensures Settled(Settled(rows, ranks), ranks) == Settled(rows, ranks)
  {
  }

  // ---------- the list ----------

  // toVariant: the rank is written for a group only.
  function ToVariant(k: Key, row: Row): Variant {
    Variant(k.name, if row.groupIDSet then Some(row.groupID) else None,
            if row.groupIDSet && k.rank != 0 then Some(k.rank) else None, row.permissions)
  }

  function KeyOf(v: Variant): Key {
    Key(v.id, if v.rankID.Some? then v.rankID.value else 0)
  }

  function FromVariant(v: Variant): Row {
    var group := if v.groupID.Some? then v.groupID.value else 0;
    Row(group != 0, group, v.permissions)
  }

  function Listed(rows: map<Key, Row>, keys: seq<Key>): seq<Variant> {
    if keys == [] then []
    else
      var k := keys[|keys| - 1];
      Listed(rows, keys[..|keys| - 1]) + if k in rows then [ToVariant(k, rows[k])] else []
  }

  // unpackPermissionsForKeypath: rows with the same key are merged.
  function Unpacked(list: seq<Variant>): map<Key, Row> {
    if list == [] then map[]
    else
      var rows, v := Unpacked(list[..|list| - 1]), list[|list| - 1];
      rows[KeyOf(v) := if KeyOf(v) in rows then Merged(rows[KeyOf(v)], FromVariant(v)) else FromVariant(v)]
  }

  function Merged(row: Row, other: Row): Row {
    row.(permissions := row.permissions + other.permissions)
  }

  ghost predicate Enumerates(keys: seq<Key>, rows: map<Key, Row>) {
    (forall k :: k in keys <==> k in rows) && Distinct(keys)
  }

  function Among(rows: map<Key, Row>, keys: seq<Key>): set<Key> {
    set k | k in keys && k in rows
  }

  lemma {:induction false} ListedCount(rows: map<Key, Row>, keys: seq<Key>)
    requires Distinct(keys)
    ensures |Listed(rows, keys)| == |Among(rows, keys)|
  {
    if keys != [] {
      var rest, last := keys[..|keys| - 1], keys[|keys| - 1];
      assert keys == rest + [last];
      ListedCount(rows, rest);
      assert last !in rest && last !in Among(rows, rest);
      if last in rows {
        assert Among(rows, keys) == Among(rows, rest) + {last};
      } else {
        assert Among(rows, keys) == Among(rows, rest);
      }
    }
  }

  lemma {:induction false} ListedIsFrom(rows: map<Key, Row>, keys: seq<Key>, v: Variant)
    ensures v in Listed(rows, keys) <==> exists k :: k in keys && k in rows && v == ToVariant(k, rows[k])
  {
    if keys != [] {
      assert keys == keys[..|keys| - 1] + [keys[|keys| - 1]];
      ListedIsFrom(rows, keys[..|keys| - 1], v);
    }
  }

  /** The packed list has one entry for each row that remains, and nothing else. */
  lemma PackedListIs(rows: map<Key, Row>, ranks: Ranks, keys: seq<Key>, v: Variant)
    requires Enumerates(keys, rows)
    ensures |Listed(Settled(rows, ranks), keys)| == |Settled(rows, ranks)|
    ensures v in Listed(Settled(rows, ranks), keys) <==>
      exists k :: k in Settled(rows, ranks) && v == ToVariant(k, Settled(rows, ranks)[k])
  {
    var t := Settled(rows, ranks);
    ListedCount(t, keys);
    assert Among(t, keys) == t.Keys;
    ListedIsFrom(t, keys, v);
  }

  lemma {:induction false} UnpackedKeys(list: seq<Variant>, n: nat, k: Key)
    requires n <= |list|
    ensures k in Unpacked(list[..n]) <==> exists j :: 0 <= j < n && KeyOf(list[j]) == k
  {
    if n > 0 {
      assert list[..n][..n - 1] == list[..n - 1];
      UnpackedKeys(list, n - 1, k);
    }
  }

  // The entry is of this name and rank; without a rank it is of rank 0.
  predicate IsEntry(v: Variant, k: Key) {
    v.id == k.name && (v.rankID == Some(k.rank) || (v.rankID == None && k.rank == 0))
  }

  /** Entries of the same name and rank become one row, which has a permission if one of them has it. */
  lemma {:induction false} UnpackedUnites(list: seq<Variant>, k: Key, p: Permission)
    ensures k in Unpacked(list) <==> exists v :: v in list && IsEntry(v, k)
    ensures k in Unpacked(list) ==>
      (p in Unpacked(list)[k].permissions <==> exists v :: v in list && IsEntry(v, k) && p in v.permissions)
  {
    if list != [] {
      var rest, last := list[..|list| - 1], list[|list| - 1];
      assert list == rest + [last];
      UnpackedUnites(rest, k, p);
      UnpackedLast(rest, last, k);
      hide Unpacked, IsEntry;
    }
  }

  /** Its group is that of the first of them. */
  lemma {:induction false} UnpackedGroup(list: seq<Variant>, k: Key, i: nat)
    requires i < |list| && IsEntry(list[i], k) && forall j :: 0 <= j < i ==> !IsEntry(list[j], k)
    ensures k in Unpacked(list)
    ensures Unpacked(list)[k].groupID == if list[i].groupID.Some? then list[i].groupID.value else 0
    ensures Unpacked(list)[k].groupIDSet <==> Unpacked(list)[k].groupID != 0
  {
    var rest, last := list[..|list| - 1], list[|list| - 1];
    assert list == rest + [last];
    UnpackedLast(rest, last, k);
    if i < |rest| {
      UnpackedGroup(rest, k, i);
    } else {
      NotUnpacked(rest, k);
    }
    hide Unpacked, IsEntry;
  }

  lemma {:induction false} NotUnpacked(list: seq<Variant>, k: Key)
    requires forall j :: 0 <= j < |list| ==> !IsEntry(list[j], k)
    ensures k !in Unpacked(list)
  {
    if list != [] {
      NotUnpacked(list[..|list| - 1], k);
    }
  }

  lemma UnpackedLast(rest: seq<Variant>, last: Variant, k: Key)
    ensures var rows := Unpacked(rest + [last]);
      && (k in rows <==> k in Unpacked(rest) || IsEntry(last, k))
      && (k in Unpacked(rest) ==>
        rows[k] == if IsEntry(last, k) then Merged(Unpacked(rest)[k], FromVariant(last)) else Unpacked(rest)[k])
      && (k !in Unpacked(rest) && IsEntry(last, k) ==> rows[k] == FromVariant(last))
  {
    assert (rest + [last])[..|rest|] == rest;
  }

  // What survives being written and read back.
  predicate Faithful(k: Key, row: Row) {
    (k.rank != 0 ==> row.groupIDSet) && (row.groupIDSet <==> row.groupID != 0)
  }

  lemma {:induction false} UnpackListed(rows: map<Key, Row>, keys: seq<Key>)
    requires forall k :: k in rows ==> Faithful(k, rows[k])
    requires Distinct(keys)
    ensures Unpacked(Listed(rows, keys)) == Restricted(rows, keys)
  {
    if keys != [] {
      var rest, k := keys[..|keys| - 1], keys[|keys| - 1];
      assert keys == rest + [k] && k !in rest;
      UnpackListed(rows, rest);
      RestrictedAppend(rows, rest, k);
      if k in rows {
        var v := ToVariant(k, rows[k]);
        assert KeyOf(v) == k && FromVariant(v) == rows[k];
        UnpackAppend(Listed(rows, rest), v);
      } else {
        assert Listed(rows, rest) + [] == Listed(rows, rest);
      }
      hide Unpacked, ToVariant, KeyOf, FromVariant, Faithful, Restricted;
    }
  }

  function Restricted(rows: map<Key, Row>, keys: seq<Key>): map<Key, Row> {
    map k | k in keys && k in rows :: rows[k]
  }

  lemma RestrictedAppend(rows: map<Key, Row>, keys: seq<Key>, k: Key)
    requires k !in keys
    ensures k !in Restricted(rows, keys)
    ensures Restricted(rows, keys + [k]) ==
      if k in rows then Restricted(rows, keys)[k := rows[k]] else Restricted(rows, keys)
  {
  }

  lemma UnpackAppend(list: seq<Variant>, v: Variant)
    ensures KeyOf(v) !in Unpacked(list) ==> Unpacked(list + [v]) == Unpacked(list)[KeyOf(v) := FromVariant(v)]
  {
    assert (list + [v])[..|list|] == list;
  }

  // Whatever is read back can be written again.
  lemma {:induction false} UnpackedIsFaithful(list: seq<Variant>, k: Key)
    requires k in Unpacked(list)
    ensures Unpacked(list)[k].groupIDSet <==> Unpacked(list)[k].groupID != 0
    ensures exists v :: v in list && KeyOf(v) == k
  {
    var rest, v := list[..|list| - 1], list[|list| - 1];
    assert list == rest + [v];
    if k in Unpacked(rest) {
      UnpackedIsFaithful(rest, k);
    }
  }

  lemma {:induction false} ListedKeepsRank(rows: map<Key, Row>, keys: seq<Key>, v: Variant)
    requires v in Listed(rows, keys)
    ensures KeyOf(v).rank != 0 ==> v.groupID.Some? && KeyOf(v) in rows && rows[KeyOf(v)].groupIDSet
  {
    var rest, k := keys[..|keys| - 1], keys[|keys| - 1];
    if v in Listed(rows, rest) {
      ListedKeepsRank(rows, rest, v);
    }
  }

  /** Reading back what was written gives the same rows exactly if every row with a rank is a group's and
      every group row has a group ID: the rank of any other row is not written, so the row becomes, or
      is merged into, the one without a rank. */
  lemma RoundTripIff(rows: map<Key, Row>, keys: seq<Key>)
    requires Enumerates(keys, rows)
    ensures Unpacked(Listed(rows, keys)) == rows <==> forall k :: k in rows ==> Faithful(k, rows[k])
  {
    var list := Listed(rows, keys);
    if forall k :: k in rows ==> Faithful(k, rows[k]) {
      UnpackListed(rows, keys);
      assert Restricted(rows, keys) == rows;
    } else if Unpacked(list) == rows {
      var k :| k in rows && !Faithful(k, rows[k]);
      UnpackedIsFaithful(list, k);
      var v :| v in list && KeyOf(v) == k;
      ListedKeepsRank(rows, keys, v);
      assert false;
    }
  }

  /** The row of a user that came with a rank is read back without it. */
  lemma RankWithoutGroupIsLost(rows: map<Key, Row>)
    requires rows == map[Key("user", 7) := Row(false, 0, {CanKick})]
    ensures Enumerates([Key("user", 7)], rows)
    ensures Unpacked(Listed(rows, [Key("user", 7)])) == map[Key("user", 0) := Row(false, 0, {CanKick})] != rows
  {
    var k := Key("user", 7);
    ListedOne(rows, k);
    UnpackedOne(ToVariant(k, rows[k]));
    hide Listed, Unpacked;
    assert k !in Unpacked(Listed(rows, [k]));
  }

  lemma ListedOne(rows: map<Key, Row>, k: Key)
    requires k in rows
    ensures Listed(rows, [k]) == [ToVariant(k, rows[k])]
  {
    assert [k][..0] == [] && Listed(rows, []) == [];
  }

  lemma UnpackedOne(v: Variant)
    ensures Unpacked([v]) == map[KeyOf(v) := FromVariant(v)]
  {
    assert [v][..0] == [] && Unpacked([]) == map[];
  }

  // ---------- the settings manager ----------

  class DomainServerSettingsManager {
    var rows: map<Key, Row>
    var ranks: Ranks
    var permissionsList: seq<Variant>

    constructor (rows: map<Key, Row>, ranks: Ranks)
      ensures this.rows == rows && this.ranks == ranks && permissionsList == []
    {
      this.rows, this.ranks, permissionsList := rows, ranks, [];
    }

    // The permissions of the removed row replace those of all rows of the group except the owner's.
    method InitializeGroupPermissions(groupName: string, permissions: set<Permission>)
      modifies this`rows
      ensures rows == Initialized(old(rows), ranks, groupName, permissions)
    {
      var rest := rows.Keys;
      while rest != {}
        invariant rest <= old(rows).Keys
        invariant rows == map k | k in old(rows) ::
          if k !in rest && k.name == groupName && ranks.Order(k) != OWNER_ORDER
          then old(rows)[k].(permissions := permissions) else old(rows)[k]
      {
        var nameKey :| nameKey in rest;
        rest := rest - {nameKey};
        if nameKey.name == groupName && ranks.Order(nameKey) != OWNER_ORDER {
          var none: set<Permission> := {};
          assert none + permissions == permissions;
          rows := rows[nameKey := rows[nameKey].(permissions := none)];
          rows := rows[nameKey := rows[nameKey].(permissions := rows[nameKey].permissions + permissions)];
        }
      }
    }

    // The three loops of packPermissionsForMap: which groups have ranks...
    method GroupNamesWithRanks(keys: seq<Key>) returns (names: set<string>)
      requires Enumerates(keys, rows)
      ensures forall name :: name in names <==> HasRanks(rows, name)
    {
      names := {};
      for i := 0 to |keys|
        invariant names == set k | k in keys[..i] && k.rank != 0 :: k.name
      {
        assert keys[..i + 1] == keys[..i] + [keys[i]];
        if keys[i].rank != 0 {
          names := names + {keys[i].name};
        }
      }
      assert keys[..|keys|] == keys;
    }

    // ...removing their rows without a rank...
    method HandDownInitialRows(keys: seq<Key>, groupNamesWithRanks: set<string>)
      requires Enumerates(keys, rows)
      requires forall name :: name in groupNamesWithRanks <==> HasRanks(rows, name)
      modifies this`rows
      ensures rows == Settled(old(rows), ranks)
    {
      ghost var before := rows;
      for i := 0 to |keys|
        invariant rows == HandedDown(before, ranks, InitialAmong(before, keys[..i]))
      {
        InitialAmongNext(before, keys, i);
        StillThere(before, ranks, InitialAmong(before, keys[..i]), keys[i]);
        var perms := rows[keys[i]];
        hide HandedDown, Initialized, InitialAmong, HasRanks;
        if perms.groupIDSet {
          if keys[i].rank == 0 && keys[i].name in groupNamesWithRanks {
            HandDownOne(before, ranks, InitialAmong(before, keys[..i]), keys[i]);
            rows := rows - {keys[i]};
            InitializeGroupPermissions(keys[i].name, perms.permissions);
          }
        }
      }
      assert keys[..|keys|] == keys;
      assert InitialAmong(before, keys) == InitialRows(before);
    }

    // ...and writing what remains.
    method WriteRows(keys: seq<Key>)
      modifies this`permissionsList
      ensures permissionsList == Listed(rows, keys)
    {
      permissionsList := [];
      for i := 0 to |keys|
        invariant permissionsList == Listed(rows, keys[..i])
      {
        assert keys[..i + 1][..i] == keys[..i];
        if keys[i] in rows {
          permissionsList := permissionsList + [ToVariant(keys[i], rows[keys[i]])];
        }
      }
      assert keys[..|keys|] == keys;
    }

    /** `keys` are the keys of the map, in its own order. */
    method PackPermissionsForMap(keys: seq<Key>)
      requires Enumerates(keys, rows)
      modifies this`rows, this`permissionsList
      ensures rows == Settled(old(rows), ranks)
      ensures permissionsList == Listed(rows, keys)
    {
      var groupNamesWithRanks := GroupNamesWithRanks(keys);
      HandDownInitialRows(keys, groupNamesWithRanks);
      WriteRows(keys);
    }

    method UnpackPermissionsForKeypath() returns (needPack: bool)
      modifies this`rows
      ensures rows == Unpacked(permissionsList)
      ensures needPack <==>
        exists i, j :: 0 <= i < j < |permissionsList| && KeyOf(permissionsList[i]) == KeyOf(permissionsList[j])
    {
      rows := map[];
      needPack := false;
      for i := 0 to |permissionsList|
        invariant rows == Unpacked(permissionsList[..i])
        invariant needPack <==> exists h, j :: 0 <= h < j < i && KeyOf(permissionsList[h]) == KeyOf(permissionsList[j])
      {
        assert permissionsList[..i + 1][..i] == permissionsList[..i];
        UnpackedKeys(permissionsList, i, KeyOf(permissionsList[i]));
        var perms := FromVariant(permissionsList[i]);
        var idKey := KeyOf(permissionsList[i]);
        if idKey in rows {
          rows := rows[idKey := Merged(rows[idKey], perms)];
          needPack := true;
        } else {
          rows := rows[idKey := perms];
        }
        hide Merged, FromVariant, KeyOf;
      }
      assert permissionsList[..|permissionsList|] == permissionsList;
    }
  }
}
