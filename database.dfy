/**
 * The two Room tables of the service database, as tables addressed by their auto-generated
 * primary key (`uid`).
 */
module Database {
  import opened Common

  /** A row of `bonded_devices`. */
  datatype BondedDeviceItem = BondedDeviceItem(uid: int, deviceName: string, deviceAddress: Mac, syncOn: bool)

  /** A row of `filtered_apps`; `package_name` carries a unique index. */
  datatype FilteredAppItem = FilteredAppItem(uid: int, packageName: string)

  /** `BondedDevicesDao` over the `bonded_devices` table. */
  class BondedDevicesTable {
    var rows: map<int, BondedDeviceItem>
    /** The largest key ever handed out; auto-generated keys are never reused. */
    var lastUid: int

    ghost predicate Valid()
      reads this
    {
      lastUid >= 0 && forall u :: u in rows ==> rows[u].uid == u && 0 < u <= lastUid
    }

    constructor()
      ensures Valid() && rows == map[] && lastUid == 0
    {
      rows := map[];
      lastUid := 0;
    }

    /** `insert` of a row whose key is left to the database (`uid` 0): returns the key it was given. */
    method Insert(item: BondedDeviceItem) returns (uid: int)
      requires Valid() && item.uid == 0
      modifies this
      ensures Valid()
      ensures uid > 0 && uid !in old(rows)
      ensures uid == old(lastUid) + 1 && lastUid == uid
      ensures rows == old(rows)[uid := item.(uid := uid)]
    {
      lastUid := lastUid + 1;
      uid := lastUid;
      rows := rows[uid := item.(uid := uid)];
    }

    /** `update`: replaces the row with the same key, if there is one. */
    method Update(item: BondedDeviceItem)
      requires Valid()
      modifies this
      ensures Valid()
      ensures rows == if item.uid in old(rows) then old(rows)[item.uid := item] else old(rows)
      ensures lastUid == old(lastUid)
    {
      if item.uid in rows {
        rows := rows[item.uid := item];
      }
    }

    /** `delete`: removes the row with the same key, if there is one. */
    method Delete(item: BondedDeviceItem)
      requires Valid()
      modifies this
      ensures Valid()
      ensures rows == old(rows) - {item.uid}
      ensures lastUid == old(lastUid)
    {
      rows := rows - {item.uid};
    }

    /** `getBondedDevices`: every row once, in an order the database does not promise. */
    method GetBondedDevices() returns (items: seq<BondedDeviceItem>, ghost uids: seq<int>)
      requires Valid()
      ensures |items| == |uids| == |rows|
      ensures multiset(uids) == multiset(rows.Keys)
      ensures forall i :: 0 <= i < |items| ==> uids[i] in rows && items[i] == rows[uids[i]]
    {
      items, uids := MapValues(rows);
    }
  }

  /** `FilteredAppsDao` over the `filtered_apps` table. */
  class FilteredAppsTable {
    var rows: map<int, FilteredAppItem>
    /** The largest key ever stored; generated keys are taken above it, so never reused. */
    var lastUid: int

    ghost predicate Valid()
      reads this
    {
      && lastUid >= 0
      && (forall u :: u in rows ==> rows[u].uid == u && u != 0 && u <= lastUid)
      && (forall u, v :: u in rows && v in rows && rows[u].packageName == rows[v].packageName ==> u == v)
    }

    constructor()
      ensures Valid() && rows == map[] && lastUid == 0
    {
      rows := map[];
      lastUid := 0;
    }

    /** Whether inserting `item` would violate the primary key or the unique package index. */
    predicate Conflicts(item: FilteredAppItem)
      reads this
    {
      (item.uid != 0 && item.uid in rows) || exists u :: u in rows && rows[u].packageName == item.packageName
    }

    /**
     * `insert`: a key of 0 is generated, any other key is taken as given; a clash with an existing
     * key or package name aborts the statement (`None`) and leaves the table unchanged.
     */
    method Insert(item: FilteredAppItem) returns (uid: Option<int>)
      requires Valid()
      modifies this
      ensures Valid()
      ensures old(Conflicts(item)) <==> uid.None?
      ensures uid.None? ==> rows == old(rows)
      ensures uid.Some? ==>
        && uid.value != 0 && uid.value !in old(rows)
        && (item.uid != 0 ==> uid.value == item.uid)
        && rows == old(rows)[uid.value := item.(uid := uid.value)]
      ensures uid.None? ==> lastUid == old(lastUid)
      ensures uid.Some? && item.uid == 0 ==> uid.value == old(lastUid) + 1
      ensures uid.Some? ==> lastUid == if uid.value > old(lastUid) then uid.value else old(lastUid)
    {
      if Conflicts(item) {
        return None;
      }
      var key := if item.uid == 0 then lastUid + 1 else item.uid;
      rows := rows[key := item.(uid := key)];
      if key > lastUid {
        lastUid := key;
      }
      uid := Some(key);
    }

    /** `delete`: removes the row with the same key, if there is one. */
    method Delete(item: FilteredAppItem)
      requires Valid()
      modifies this
      ensures Valid()
      ensures rows == old(rows) - {item.uid}
      ensures lastUid == old(lastUid)
    {
      rows := rows - {item.uid};
    }

    /** `getFilteredApps`: every row once, in an order the database does not promise. */
    method GetFilteredApps() returns (items: seq<FilteredAppItem>, ghost uids: seq<int>)
      requires Valid()
      ensures |items| == |uids| == |rows|
      ensures multiset(uids) == multiset(rows.Keys)
      ensures forall i :: 0 <= i < |items| ==> uids[i] in rows && items[i] == rows[uids[i]]
    {
      items, uids := MapValues(rows);
    }
  }

  /** `ServiceDatabase`: the Room database holding both tables. */
  class ServiceDatabase {
    const bondedDevices: BondedDevicesTable
    const filteredApps: FilteredAppsTable

    /** A database whose tables start empty (their on-disk contents are not modelled). */
    constructor()
      ensures fresh(bondedDevices) && fresh(filteredApps)
      ensures bondedDevices.Valid() && bondedDevices.rows == map[]
      ensures filteredApps.Valid() && filteredApps.rows == map[]
    {
      bondedDevices := new BondedDevicesTable();
      filteredApps := new FilteredAppsTable();
    }
  }
}
