/** The manager's own records: the persistent part, its saved copy, and the
    two tables that live in memory only. */
module StateFile {
  import opened World
  import Marks
  import Sorting

  class State {
    const enabled: bool
    var persistent: Persistent
    var disk: Persistent
    var usbVms: map<string, string>
    var pciVms: map<string, string>

    /** `disk` is what the file reads as; a missing or invalid one reads as the default. */
    constructor Load(enabled: bool, disk: Persistent)
      ensures this.enabled == enabled && this.disk == disk
      ensures persistent == if enabled then disk else DEFAULT_PERSISTENT
      ensures usbVms == map[] && pciVms == map[]
    {
      this.enabled := enabled;
      this.disk := disk;
      persistent := if enabled then disk else DEFAULT_PERSISTENT;
      usbVms, pciVms := map[], map[];
    }

    /** Written to a temporary file and renamed: all of it, or nothing. */
    method Save(fails: bool) returns (ok: bool)
      modifies `disk
      ensures ok <==> !(enabled && fails)
      ensures disk == if enabled && !fails then persistent else old(disk)
    {
      if !enabled {
        return true;
      }
      if fails {
        return false;
      }
      disk := persistent;
      ok := true;
    }

    /** Sets the mark, keeping the list sorted and free of the id's duplicates. */
    method SetDisconnected(id: string, value: bool, saveFails: bool) returns (ok: bool)
      modifies `persistent, `disk
      ensures persistent ==
              old(persistent).(disconnected := Marks.SetDisconnected(old(persistent.disconnected), id, value))
      ensures ok <==> !(enabled && saveFails)
      ensures disk == if enabled && !saveFails then persistent else old(disk)
    {
      var list := persistent.disconnected;
      var kept := [];
      for i := 0 to |list|
        invariant kept == Marks.Retain(list[..i], id)
        modifies {}
      {
        assert list[..i + 1] == list[..i] + [list[i]];
        Marks.RetainAppend(list[..i], list[i], id);
        if list[i] != id {
          kept := kept + [list[i]];
        }
      }
      assert list[..|list|] == list;
      if value {
        kept := Sorting.Sort(kept + [id], Sorting.Leq);
      }
      persistent := persistent.(disconnected := kept);
      ok := Save(saveFails);
    }

    method SelectVm(id: string, vm: string, saveFails: bool) returns (ok: bool)
      modifies `persistent, `disk
      ensures persistent == old(persistent).(selected := old(persistent.selected)[id := vm])
      ensures ok <==> !(enabled && saveFails)
      ensures disk == if enabled && !saveFails then persistent else old(disk)
    {
      persistent := persistent.(selected := persistent.selected[id := vm]);
      ok := Save(saveFails);
    }
  }
}
