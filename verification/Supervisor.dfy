/** The records the cgroup code works on: processes, and the applications they belong to. */
module Supervisor {
  import opened Basics

  type SchedPolicy = nat

  const SP_DEFAULT: SchedPolicy := 0
  const SP_BACKGROUND: SchedPolicy := 1
  const SP_FOREGROUND: SchedPolicy := 2
  const SP_TOP_APP: SchedPolicy := 4
  const SP_UPPER_LIMIT: SchedPolicy := 0xff

  datatype ProcRecordType = Normal | Extension | Render | Gpu | Child {
    /** These follow a host process. */
    predicate Follows() {
      Render? || Gpu? || Child?
    }
  }

  datatype AbilityType = Page | Service | Data | ExtensionAbility | OtherAbility(code: int)

  datatype AbilityInfo = AbilityInfo(recordId: int, kind: AbilityType)

  datatype WindowInfo = WindowInfo(windowId: int, isVisible: bool)

  datatype ApplicationState = Background | Foreground | OtherState(code: int)

  /** A reported change of group. */
  datatype GroupChange = GroupChange(oldGroup: SchedPolicy, newGroup: SchedPolicy)

  /** Each report starts where the one before ended, goes somewhere else, and the last one is where the process is. */
  ghost predicate Chain(reports: seq<GroupChange>, group: SchedPolicy) {
    && (forall i :: 0 <= i < |reports| ==> reports[i].oldGroup != reports[i].newGroup)
    && (forall i :: 0 < i < |reports| ==> reports[i].oldGroup == reports[i - 1].newGroup)
    && (|reports| > 0 ==> reports[0].oldGroup == SP_UPPER_LIMIT)
    && group == if |reports| == 0 then SP_UPPER_LIMIT else reports[|reports| - 1].newGroup
  }

  lemma ChainNext(reports: seq<GroupChange>, group: SchedPolicy, next: SchedPolicy)
    requires Chain(reports, group) && group != next
    ensures Chain(reports + [GroupChange(group, next)], next)
  {
  }

  class ProcessRecord {
    const pid: int
    const uid: int
    var processName: string
    var processType: ProcRecordType
    var hostPid: int
    var processState: ApplicationState
    var abilities: seq<AbilityInfo>
    var windows: seq<WindowInfo>
    var lastSchedGroup: SchedPolicy
    var curSchedGroup: SchedPolicy
    var setSchedGroup: SchedPolicy
    ghost var reports: seq<GroupChange>   // the group changes reported for this record

    constructor (uid: int, pid: int)
      ensures this.pid == pid && this.uid == uid && processName == ""
      ensures processType == Normal && hostPid == -1 && abilities == [] && windows == []
      ensures lastSchedGroup == curSchedGroup == setSchedGroup == SP_UPPER_LIMIT && reports == []
    {
      this.pid, this.uid := pid, uid;
      processName, processType, hostPid, processState := "", Normal, -1, OtherState(0);
      abilities, windows := [], [];
      lastSchedGroup, curSchedGroup, setSchedGroup, reports := SP_UPPER_LIMIT, SP_UPPER_LIMIT, SP_UPPER_LIMIT, [];
    }

    /** A name is given once. */
    method SetName(name: string)
      modifies this`processName
      ensures processName == if old(processName) == "" then name else old(processName)
    {
      if processName == "" {
        processName := name;
      }
    }

    predicate HasServiceExtension()
      reads this`abilities
    {
      exists a :: a in abilities && (a.kind.Service? || a.kind.ExtensionAbility? || a.kind.Data?)
    }

    predicate IsVisible()
      reads this`windows
    {
      exists w :: w in windows && w.isVisible
    }
  }

  class Application {
    const uid: int
    var pidsMap: map<int, ProcessRecord>
    var hostPidsSet: set<int>
    var focusedProcess: ProcessRecord?
    ghost var records: set<ProcessRecord>   // every record added so far

    constructor (uid: int)
      ensures Valid() && this.uid == uid && pidsMap == map[] && hostPidsSet == {} && focusedProcess == null
    {
      this.uid := uid;
      pidsMap, hostPidsSet, focusedProcess, records := map[], {}, null, {};
    }

    /** Each record is kept under its own pid. */
    ghost predicate Valid()
      reads this`pidsMap, this`records
    {
      && (forall p :: p in pidsMap ==> pidsMap[p].pid == p)
      && (forall p :: p in pidsMap ==> pidsMap[p] in records)
    }

    ghost predicate Has(pr: ProcessRecord)
      reads this`pidsMap
    {
      pr.pid in pidsMap && pidsMap[pr.pid] == pr
    }

    /** The focus is on a record of this application, if on any. */
    ghost predicate FocusKept()
      reads this`pidsMap, this`focusedProcess
    {
      focusedProcess != null ==> Has(focusedProcess)
    }

    method AddProcessRecord(pr: ProcessRecord)
      requires Valid()
      modifies this`pidsMap, this`records
      ensures Valid() && pidsMap == old(pidsMap)[pr.pid := pr]
    {
      pidsMap := pidsMap[pr.pid := pr];
      records := records + {pr};
    }

    /** The record goes, and with it its focus and its being a host. */
    method RemoveProcessRecord(pid: int)
      requires Valid()
      modifies this
      ensures Valid() && pidsMap == old(pidsMap) - {pid}
      ensures hostPidsSet == if pid in old(pidsMap) then old(hostPidsSet) - {pid} else old(hostPidsSet)
      ensures focusedProcess
        == if pid in old(pidsMap) && old(focusedProcess) == old(pidsMap)[pid] then null else old(focusedProcess)
      ensures old(FocusKept()) ==> FocusKept()
    {
      if pid in pidsMap {
        if focusedProcess == pidsMap[pid] {
          focusedProcess := null;
        }
        if pid in hostPidsSet {
          hostPidsSet := hostPidsSet - {pid};
        }
        pidsMap := pidsMap - {pid};
      }
    }

    method GetProcessRecordNonNull(pid: int) returns (pr: ProcessRecord)
      requires Valid()
      modifies this`pidsMap, this`records
      ensures Valid() && pid in pidsMap && pidsMap[pid] == pr && pr.pid == pid
      ensures pid in old(pidsMap) ==> pidsMap == old(pidsMap)
      ensures pid !in old(pidsMap) ==>
        && pidsMap == old(pidsMap)[pid := pr] && fresh(pr) && pr.reports == []
        && pr.lastSchedGroup == pr.curSchedGroup == pr.setSchedGroup == SP_UPPER_LIMIT
      ensures records == old(records) + {pr}
      ensures old(FocusKept()) ==> FocusKept()
    {
      if pid in pidsMap {
        return pidsMap[pid];
      }
      pr := new ProcessRecord(uid, pid);
      pidsMap := pidsMap[pid := pr];
      records := records + {pr};
    }

    method AddHostProcess(hostPid: int)
      modifies this`hostPidsSet
      ensures hostPidsSet == old(hostPidsSet) + {hostPid}
    {
      hostPidsSet := hostPidsSet + {hostPid};
    }

    predicate IsHostProcess(hostPid: int)
      reads this`hostPidsSet
    {
      hostPid in hostPidsSet
    }
  }
}
