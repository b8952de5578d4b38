/**
 * `ServiceModel`: the device registry of the core service. Three tables keyed by MAC address
 * (connected, scanned, bonded) and the list of filtered apps.
 */
module Registry {
  import opened Common
  import opened Database

  /** The `Pair<BleDevice, BondedDeviceItem>` kept per bonded or connected device. */
  datatype Bonded = Bonded(device: BleDevice, item: BondedDeviceItem)

  /** The radio's bonded devices as start-up sees them: none at all without connect permission. */
  function RemoteBonded(radio: map<Mac, string>, hasPermission: bool): map<Mac, string> {
    if hasPermission then radio else map[]
  }

  /** The stored rows once start-up reconciliation is complete. */
  function ReconciledRows(rows: map<int, BondedDeviceItem>, remote: map<Mac, string>, hasPermission: bool)
    : map<int, BondedDeviceItem>
  {
    map u | u in rows && (rows[u].deviceAddress in remote || !hasPermission) ::
      if rows[u].deviceAddress in remote
      then rows[u].(deviceName := remote[rows[u].deviceAddress])
      else rows[u]
  }

  /** The addresses of the stored rows the radio still bonds: the keys the bonded table starts with. */
  function SurvivingAddresses(rows: map<int, BondedDeviceItem>, remote: map<Mac, string>): set<Mac> {
    set u | u in rows && rows[u].deviceAddress in remote :: rows[u].deviceAddress
  }

  /** With connect permission, exactly the rows of devices the radio still bonds survive, under the radio's name. */
  lemma ReconcileWithPermission(rows: map<int, BondedDeviceItem>, radio: map<Mac, string>)
    ensures forall u :: u in ReconciledRows(rows, radio, true) <==> u in rows && rows[u].deviceAddress in radio
    ensures forall u :: u in ReconciledRows(rows, radio, true) ==>
      ReconciledRows(rows, radio, true)[u] == rows[u].(deviceName := radio[rows[u].deviceAddress])
  {
  }

  /** Without connect permission the radio reports nothing, and no stored row is changed or deleted. */
  lemma ReconcileWithoutPermission(rows: map<int, BondedDeviceItem>, radio: map<Mac, string>)
    ensures ReconciledRows(rows, RemoteBonded(radio, false), false) == rows
  {
  }

  /**
   * The stored rows once the keys in `done` have been processed: a processed row whose address the
   * radio knows takes the radio's name; a processed row the radio does not know is deleted, but
   * only with permission; unprocessed rows are untouched.
   */
  ghost function Reconcile(rows: map<int, BondedDeviceItem>, remote: map<Mac, string>, hasPermission: bool,
                           done: seq<int>): map<int, BondedDeviceItem>
  {
    map u | u in rows && (u !in done || rows[u].deviceAddress in remote || !hasPermission) ::
      if u in done && rows[u].deviceAddress in remote
      then rows[u].(deviceName := remote[rows[u].deviceAddress])
      else rows[u]
  }

  /** The addresses of the processed rows that the radio still bonds. */
  ghost function Survivors(rows: map<int, BondedDeviceItem>, remote: map<Mac, string>, done: seq<int>): set<Mac> {
    set u | u in done && u in rows && rows[u].deviceAddress in remote :: rows[u].deviceAddress
  }

  /** Processing one more row renames it, deletes it, or leaves it, and touches no other row. */
  lemma ReconcileStep(rows: map<int, BondedDeviceItem>, remote: map<Mac, string>, hasPermission: bool,
                      done: seq<int>, u: int)
    requires u in rows && u !in done
    ensures rows[u].deviceAddress in remote ==>
      Reconcile(rows, remote, hasPermission, done + [u])
        == Reconcile(rows, remote, hasPermission, done)[u := rows[u].(deviceName := remote[rows[u].deviceAddress])]
    ensures rows[u].deviceAddress !in remote && hasPermission ==>
      Reconcile(rows, remote, hasPermission, done + [u]) == Reconcile(rows, remote, hasPermission, done) - {u}
    ensures rows[u].deviceAddress !in remote && !hasPermission ==>
      Reconcile(rows, remote, hasPermission, done + [u]) == Reconcile(rows, remote, hasPermission, done)
    ensures Survivors(rows, remote, done + [u])
      == Survivors(rows, remote, done) + (if rows[u].deviceAddress in remote then {rows[u].deviceAddress} else {})
  {
  }

  /** Once every stored key has been processed, the stepwise state is the reconciled one. */
  lemma ReconcileDone(rows: map<int, BondedDeviceItem>, remote: map<Mac, string>, hasPermission: bool,
                      done: seq<int>)
    requires forall u :: u in rows ==> u in done
    ensures Reconcile(rows, remote, hasPermission, done) == ReconciledRows(rows, remote, hasPermission)
    ensures Survivors(rows, remote, done) == SurvivingAddresses(rows, remote)
  {
    var r, all := Reconcile(rows, remote, hasPermission, done), ReconciledRows(rows, remote, hasPermission);
    forall u | u in rows
      ensures (u in r <==> u in all) && (u in r ==> r[u] == all[u])
    {
      assert u in done;
    }
    assert r.Keys == all.Keys;
    forall a | a in SurvivingAddresses(rows, remote)
      ensures a in Survivors(rows, remote, done)
    {
      var u :| u in rows && rows[u].deviceAddress in remote && rows[u].deviceAddress == a;
    }
  }

  /** The store after `ReconcileRow` on the next unprocessed row is the stepwise state with that row processed. */
  lemma ReconcileNext(rows: map<int, BondedDeviceItem>, remote: map<Mac, string>, hasPermission: bool,
                      done: seq<int>, u: int, after: map<int, BondedDeviceItem>)
    requires u in rows && u !in done
    requires var before, it := Reconcile(rows, remote, hasPermission, done), rows[u];
      && (it.deviceAddress in remote ==> after == before[u := it.(deviceName := remote[it.deviceAddress])])
      && (it.deviceAddress !in remote && hasPermission ==> after == before - {u})
      && (it.deviceAddress !in remote && !hasPermission ==> after == before)
    ensures after == Reconcile(rows, remote, hasPermission, done + [u])
    ensures Survivors(rows, remote, done + [u])
      == Survivors(rows, remote, done) + (if rows[u].deviceAddress in remote then {rows[u].deviceAddress} else {})
  {
    ReconcileStep(rows, remote, hasPermission, done, u);
  }

  /** A row not yet processed is still stored as it was. */
  lemma ReconcileUntouched(rows: map<int, BondedDeviceItem>, remote: map<Mac, string>, hasPermission: bool,
                           done: seq<int>, u: int)
    requires u in rows && u !in done
    ensures u in Reconcile(rows, remote, hasPermission, done)
    ensures Reconcile(rows, remote, hasPermission, done)[u] == rows[u]
  {
  }

  /** Each collected survivor is a renamed stored row of a device the radio bonds, under its address. */
  ghost predicate Collected(local: map<Mac, Bonded>, rows: map<int, BondedDeviceItem>, remote: map<Mac, string>) {
    forall m :: m in local ==>
      && m in remote
      && local[m].device == BleDevice(m, remote[m])
      && local[m].item.uid in rows
      && rows[local[m].item.uid].deviceAddress == m
      && local[m].item == rows[local[m].item.uid].(deviceName := remote[m])
  }

  lemma CollectedAdd(local: map<Mac, Bonded>, rows: map<int, BondedDeviceItem>, remote: map<Mac, string>, u: int)
    requires Collected(local, rows, remote)
    requires u in rows && rows[u].uid == u && rows[u].deviceAddress in remote
    ensures var a := rows[u].deviceAddress;
      var item := rows[u].(deviceName := remote[a]);
      Collected(local[a := Bonded(BleDevice(a, item.deviceName), item)], rows, remote)
  {
  }

  /** The collected survivors are exactly what the reconciled store holds for them. */
  lemma CollectedStored(local: map<Mac, Bonded>, rows: map<int, BondedDeviceItem>, remote: map<Mac, string>,
                        hasPermission: bool)
    requires Collected(local, rows, remote)
    ensures forall m :: m in local ==>
      && m in remote
      && local[m].device == BleDevice(m, remote[m])
      && local[m].item.deviceAddress == m
      && local[m].item.uid in ReconciledRows(rows, remote, hasPermission)
      && ReconciledRows(rows, remote, hasPermission)[local[m].item.uid] == local[m].item
  {
  }

  /**
   * One step of `initBondedDevices`' loop on the stored row `it`: renames it when the radio knows
   * its address under another name, deletes it when the radio does not know it and permission
   * allows; returns the row as it now stands.
   */
  method ReconcileRow(dao: BondedDevicesTable, it: BondedDeviceItem, remote: map<Mac, string>, hasPermission: bool)
    returns (item: BondedDeviceItem)
    requires dao.Valid() && it.uid in dao.rows && dao.rows[it.uid] == it
    modifies dao
    ensures dao.Valid()
    ensures it.deviceAddress in remote ==>
      item == it.(deviceName := remote[it.deviceAddress]) && dao.rows == old(dao.rows)[it.uid := item]
    ensures it.deviceAddress !in remote && hasPermission ==> dao.rows == old(dao.rows) - {it.uid}
    ensures it.deviceAddress !in remote && !hasPermission ==> dao.rows == old(dao.rows)
    ensures dao.lastUid == old(dao.lastUid)
  {
    item := it;
    if it.deviceAddress in remote {
      var name := remote[it.deviceAddress];
      item := it.(deviceName := name);
      if name != it.deviceName {
        dao.Update(item);
      } else {
        assert old(dao.rows)[it.uid := item] == old(dao.rows);
      }
    } else if hasPermission {
      dao.Delete(it);
    }
  }

  /**
   * The body of `initBondedDevices`' loop on the next unprocessed stored row `it`: reconciles it and,
   * when the radio still bonds it, records it under its address.
   */
  method CollectRow(dao: BondedDevicesTable, ghost rows: map<int, BondedDeviceItem>, remote: map<Mac, string>,
                    hasPermission: bool, ghost done: seq<int>, it: BondedDeviceItem, local: map<Mac, Bonded>)
    returns (local': map<Mac, Bonded>)
    requires dao.Valid()
    requires it.uid in rows && rows[it.uid] == it && it.uid !in done
    requires dao.rows == Reconcile(rows, remote, hasPermission, done)
    requires local.Keys == Survivors(rows, remote, done) && Collected(local, rows, remote)
    modifies dao
    ensures dao.Valid()
    ensures dao.rows == Reconcile(rows, remote, hasPermission, done + [it.uid])
    ensures local'.Keys == Survivors(rows, remote, done + [it.uid]) && Collected(local', rows, remote)
    ensures dao.lastUid == old(dao.lastUid)
  {
    ReconcileUntouched(rows, remote, hasPermission, done, it.uid);
    var item := ReconcileRow(dao, it, remote, hasPermission);
    ReconcileNext(rows, remote, hasPermission, done, it.uid, dao.rows);
    local' := local;
    if it.deviceAddress in remote {
      CollectedAdd(local, rows, remote, it.uid);
      local' := local[it.deviceAddress := Bonded(BleDevice(it.deviceAddress, item.deviceName), item)];
    }
  }

  /**
   * The loop of `initBondedDevices` over the stored rows: reconciles each row with the radio's
   * bonded devices `remote` and collects the survivors by address.
   */
  method LoadBonded(dao: BondedDevicesTable, remote: map<Mac, string>, hasPermission: bool)
    returns (local: map<Mac, Bonded>)
    requires dao.Valid()
    modifies dao
    ensures dao.Valid()
    ensures dao.rows == ReconciledRows(old(dao.rows), remote, hasPermission)
    ensures local.Keys == SurvivingAddresses(old(dao.rows), remote)
    ensures forall m :: m in local ==>
      && m in remote
      && local[m].device == BleDevice(m, remote[m])
      && local[m].item.deviceAddress == m
      && local[m].item.uid in dao.rows
      && dao.rows[local[m].item.uid] == local[m].item
    ensures dao.lastUid == old(dao.lastUid)
  {
    ghost var rows0 := dao.rows;
    var items, uids := dao.GetBondedDevices();
    local := map[];
    for i := 0 to |items|
      invariant dao.Valid()
      invariant dao.rows == Reconcile(rows0, remote, hasPermission, uids[..i])
      invariant local.Keys == Survivors(rows0, remote, uids[..i])
      invariant Collected(local, rows0, remote)
      invariant dao.lastUid == old(dao.lastUid)
    {
      var it := items[i];
      ghost var u := uids[i];
      assert it == rows0[u] && it.uid == u;
      assert u !in uids[..i] by {
        forall j | 0 <= j < i
          ensures uids[j] != u
        {
          SetMultisetDistinct(uids, rows0.Keys, j, i);
        }
      }
      local := CollectRow(dao, rows0, remote, hasPermission, uids[..i], it, local);
      assert uids[..i + 1] == uids[..i] + [u];
    }
    forall u | u in rows0
      ensures u in uids
    {
      assert u in multiset(uids);
    }
    assert uids[..|items|] == uids;
    ReconcileDone(rows0, remote, hasPermission, uids);
    CollectedStored(local, rows0, remote, hasPermission);
  }

  class ServiceModel {
    const dao: BondedDevicesTable
    /** `bleConnectedDevices` */
    var connected: map<Mac, Bonded>
    /** `bleScanningDevices` */
    var scanning: map<Mac, BleDevice>
    /** `allBondedDevices` */
    var bonded: map<Mac, Bonded>
    var filteredApps: seq<FilteredAppItem>

    /**
     * Every table is keyed by the MAC of its entries, and every bonded entry holds the stored row
     * for its device.
     */
    ghost predicate Tables()
      reads this, dao
    {
      && dao.Valid()
      && (forall m :: m in scanning ==> scanning[m].mac == m)
      && (forall m :: m in connected ==> connected[m].device.mac == m)
      && (forall m :: m in bonded ==>
            && bonded[m].device.mac == m
            && bonded[m].item.deviceAddress == m
            && bonded[m].item.uid in dao.rows
            && dao.rows[bonded[m].item.uid] == bonded[m].item)
    }

    /**
     * A device both connected and bonded shares one record between the two tables (the source
     * stores the same object in both).
     */
    ghost predicate Valid()
      reads this, dao
    {
      && Tables()
      && (forall m :: m in connected && m in bonded ==> connected[m].item == bonded[m].item)
    }

    /**
     * The registry with its bonded table loaded by `initBondedDevices` from the stored rows and the
     * radio's bonded devices (name by address).
     */
    constructor(dao: BondedDevicesTable, radio: map<Mac, string>, hasPermission: bool)
      requires dao.Valid()
      modifies dao
      ensures Valid() && this.dao == dao
      ensures connected == map[] && scanning == map[] && filteredApps == []
      ensures dao.rows == ReconciledRows(old(dao.rows), RemoteBonded(radio, hasPermission), hasPermission)
      ensures bonded.Keys == SurvivingAddresses(old(dao.rows), RemoteBonded(radio, hasPermission))
      ensures forall m :: m in bonded ==> m in radio && bonded[m].device == BleDevice(m, radio[m])
    {
      this.dao := dao;
      connected := map[];
      scanning := map[];
      bonded := map[];
      filteredApps := [];
      new;
      InitBondedDevices(radio, hasPermission);
    }

    /**
     * `initBondedDevices`: keeps the stored devices the radio still bonds, renamed to the radio's
     * name where it differs, deletes the others when permission allows, and replaces the bonded
     * table with the survivors.
     */
    method InitBondedDevices(radio: map<Mac, string>, hasPermission: bool)
      requires dao.Valid()
      requires forall m :: m in scanning ==> scanning[m].mac == m
      requires connected == map[]
      modifies this, dao
      ensures Valid()
      ensures connected == old(connected) && scanning == old(scanning) && filteredApps == old(filteredApps)
      ensures dao.rows == ReconciledRows(old(dao.rows), RemoteBonded(radio, hasPermission), hasPermission)
      ensures bonded.Keys == SurvivingAddresses(old(dao.rows), RemoteBonded(radio, hasPermission))
      ensures forall m :: m in bonded ==> m in radio && bonded[m].device == BleDevice(m, radio[m])
      ensures dao.lastUid == old(dao.lastUid)
    {
      bonded := LoadBonded(dao, RemoteBonded(radio, hasPermission), hasPermission);
    }

    /** `removeConnectedDevice`: only that MAC leaves the connected table. */
    method RemoveConnectedDevice(device: BleDevice)
      requires Valid()
      modifies this
      ensures Valid()
      ensures connected == old(connected) - {device.mac}
      ensures bonded == old(bonded) && scanning == old(scanning) && filteredApps == old(filteredApps)
    {
      connected := connected - {device.mac};
    }

    /**
     * `insertBondedDevice`: an already bonded MAC gets its existing record back and nothing is
     * stored; otherwise a record (name, MAC, sync on) is stored under a fresh key and bonded.
     */
    method InsertBondedDevice(device: BleDevice) returns (item: BondedDeviceItem)
      requires Valid()
      modifies this, dao
      ensures Tables()
      ensures forall m :: m != device.mac && m in connected && m in bonded ==> connected[m].item == bonded[m].item
      ensures device.mac in old(bonded) ==>
        && item == old(bonded)[device.mac].item
        && bonded == old(bonded) && dao.rows == old(dao.rows)
      ensures device.mac !in old(bonded) ==>
        && item == BondedDeviceItem(item.uid, device.name, device.mac, true)
        && item.uid !in old(dao.rows)
        && dao.rows == old(dao.rows)[item.uid := item]
        && bonded == old(bonded)[device.mac := Bonded(device, item)]
      ensures device.mac in old(bonded) ==> dao.lastUid == old(dao.lastUid)
      ensures device.mac !in old(bonded) ==> item.uid == old(dao.lastUid) + 1 && dao.lastUid == item.uid
      ensures item.deviceAddress == device.mac && device.mac in bonded && bonded[device.mac].item == item
      ensures connected == old(connected) && scanning == old(scanning) && filteredApps == old(filteredApps)
    {
      if device.mac in bonded {
        return bonded[device.mac].item;
      }
      var bondedDevice := BondedDeviceItem(0, device.name, device.mac, true);
      var uid := dao.Insert(bondedDevice);
      bondedDevice := bondedDevice.(uid := uid);
      bonded := bonded[bondedDevice.deviceAddress := Bonded(device, bondedDevice)];
      item := bondedDevice;
    }

    /** `addConnectedDevice`: the device ends both bonded and connected, sharing its bonded record. */
    method AddConnectedDevice(device: BleDevice)
      requires Valid()
      modifies this, dao
      ensures Valid()
      ensures device.mac in bonded && device.mac in connected
      ensures connected == old(connected)[device.mac := Bonded(device, bonded[device.mac].item)]
      ensures device.mac in old(bonded) ==> bonded == old(bonded) && dao.rows == old(dao.rows)
      ensures device.mac !in old(bonded) ==>
        var item := bonded[device.mac].item;
        && item == BondedDeviceItem(item.uid, device.name, device.mac, true)
        && item.uid !in old(dao.rows)
        && dao.rows == old(dao.rows)[item.uid := item]
        && bonded == old(bonded)[device.mac := Bonded(device, item)]
      ensures device.mac in old(bonded) ==> dao.lastUid == old(dao.lastUid)
      ensures device.mac !in old(bonded) ==>
        bonded[device.mac].item.uid == old(dao.lastUid) + 1 && dao.lastUid == bonded[device.mac].item.uid
      ensures forall m :: m in old(bonded) ==> m in bonded && bonded[m] == old(bonded)[m]
      ensures scanning == old(scanning) && filteredApps == old(filteredApps)
    {
      var bondedDevice := InsertBondedDevice(device);
      connected := connected[device.mac := Bonded(device, bondedDevice)];
    }

    /** `getBondedDevices`: every bonded entry once, in the hash map's unspecified order. */
    method GetBondedDevices() returns (entries: seq<Bonded>, ghost macs: seq<Mac>)
      ensures |entries| == |macs| == |bonded|
      ensures multiset(macs) == multiset(bonded.Keys)
      ensures forall i :: 0 <= i < |entries| ==> macs[i] in bonded && entries[i] == bonded[macs[i]]
    {
      entries, macs := MapValues(bonded);
    }

    /** `getConnectedDevices`: every connected entry once, in the hash map's unspecified order. */
    method GetConnectedDevices() returns (entries: seq<Bonded>, ghost macs: seq<Mac>)
      ensures |entries| == |macs| == |connected|
      ensures multiset(macs) == multiset(connected.Keys)
      ensures forall i :: 0 <= i < |entries| ==> macs[i] in connected && entries[i] == connected[macs[i]]
    {
      entries, macs := MapValues(connected);
    }

    /**
     * `setSyncState`: on a bonded MAC, sets `syncOn` in the shared record (so the connected table
     * sees it too) and stores that record; on any other MAC, nothing happens.
     */
    method SetSyncState(device: BleDevice, on: bool)
      requires Valid()
      modifies this, dao
      ensures Valid()
      ensures device.mac !in old(bonded) ==>
        bonded == old(bonded) && connected == old(connected) && dao.rows == old(dao.rows)
      ensures device.mac in old(bonded) ==>
        var item := old(bonded)[device.mac].item.(syncOn := on);
        && bonded == old(bonded)[device.mac := old(bonded)[device.mac].(item := item)]
        && dao.rows == old(dao.rows)[item.uid := item]
        && connected == if device.mac in old(connected)
                        then old(connected)[device.mac := old(connected)[device.mac].(item := item)]
                        else old(connected)
      ensures scanning == old(scanning) && filteredApps == old(filteredApps)
      ensures dao.lastUid == old(dao.lastUid)
    {
      if device.mac in bonded {
        var p := bonded[device.mac];
        var item := p.item.(syncOn := on);
        bonded := bonded[device.mac := p.(item := item)];
        if device.mac in connected {
          connected := connected[device.mac := connected[device.mac].(item := item)];
        }
        dao.Update(item);
      }
    }

    /**
     * `removeSyncDevice`: the MAC leaves the bonded table and its record is deleted if it was
     * there; the connected table is left as it is.
     */
    method RemoveSyncDevice(device: BleDevice)
      requires Valid()
      modifies this, dao
      ensures Valid()
      ensures bonded == old(bonded) - {device.mac}
      ensures dao.rows == if device.mac in old(bonded) then old(dao.rows) - {old(bonded)[device.mac].item.uid} else old(dao.rows)
      ensures connected == old(connected) && scanning == old(scanning) && filteredApps == old(filteredApps)
      ensures dao.lastUid == old(dao.lastUid)
    {
      if device.mac in bonded {
        var removed := bonded[device.mac];
        bonded := bonded - {device.mac};
        dao.Delete(removed.item);
      }
    }

    /** `checkDeviceBonded` */
    predicate IsBonded(device: BleDevice)
      reads this
    {
      device.mac in bonded
    }

    /**
     * `addScanningDevice`: a bonded device is refused and the table left unchanged; any other is
     * stored under its MAC, replacing an earlier sighting.
     */
    method AddScanningDevice(device: BleDevice) returns (added: bool)
      requires Valid()
      modifies this
      ensures Valid()
      ensures added <==> device.mac !in bonded
      ensures scanning == if added then old(scanning)[device.mac := device] else old(scanning)
      ensures connected == old(connected) && bonded == old(bonded) && filteredApps == old(filteredApps)
    {
      if IsBonded(device) {
        return false;
      }
      scanning := scanning[device.mac := device];
      return true;
    }

    /** `clearScanningDevices` */
    method ClearScanningDevices()
      requires Valid()
      modifies this
      ensures Valid()
      ensures scanning == map[]
      ensures connected == old(connected) && bonded == old(bonded) && filteredApps == old(filteredApps)
    {
      scanning := map[];
    }

    /** `getScanningDevices`: every sighting once, in the hash map's unspecified order. */
    method GetScanningDevices() returns (devices: seq<BleDevice>, ghost macs: seq<Mac>)
      ensures |devices| == |macs| == |scanning|
      ensures multiset(macs) == multiset(scanning.Keys)
      ensures forall i :: 0 <= i < |devices| ==> macs[i] in scanning && devices[i] == scanning[macs[i]]
    {
      devices, macs := MapValues(scanning);
    }

    /** `onFilteredAppsChanged`: the list is replaced by the latest table snapshot, not merged. */
    method OnFilteredAppsChanged(apps: seq<FilteredAppItem>)
      requires Valid()
      modifies this
      ensures Valid()
      ensures filteredApps == apps
      ensures FilteredPackages() == set i | 0 <= i < |apps| :: apps[i].packageName
      ensures connected == old(connected) && bonded == old(bonded) && scanning == old(scanning)
    {
      filteredApps := apps;
    }

    /** `getFilteredApps`: the package names of the current list. */
    function FilteredPackages(): set<string>
      reads this
    {
      set i | 0 <= i < |filteredApps| :: filteredApps[i].packageName
    }
  }
}
