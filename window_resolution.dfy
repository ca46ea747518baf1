/**
  `GetConsoleOrTerminalWindow`: the fallback chain that picks the window an
  interactive sign-in is parented to, and `GetParentProcessId`, its query for
  the parent process id. The operating system is an `OsSnapshot`: everything
  the chain can learn from user32, kernel32, ntdll and System.Diagnostics
  during one call, each read given as the value it returns or the exception
  it throws.
 */
module WindowResolution {
  import opened NativeTypes
  import opened ProcessScan

  /** The part of PROCESS_BASIC_INFORMATION the resolver reads. */
  datatype BasicInformation = BasicInformation(inheritedFromUniqueProcessId: IntPtr)

  /** What `NtQueryInformationProcess(handle, 0, ...)` reports: its NTSTATUS and
      the structure it filled in. */
  datatype QueryResult = QueryResult(status: Int32, information: BasicInformation)

  datatype OsSnapshot = OsSnapshot(
    /** `GetConsoleWindow()` */
    consoleWindow: IntPtr,
    /** `GetAncestor(hwnd, GetRootOwner)` */
    rootOwner: IntPtr -> IntPtr,
    /** `Process.GetCurrentProcess().Id` */
    currentProcessId: Int32,
    /** `Process.GetCurrentProcess().MainWindowHandle` */
    currentMainWindow: Outcome<IntPtr>,
    /** `GetProcessById(id)`, its `Handle`, and the query on that handle */
    queryInformation: Int32 -> Outcome<QueryResult>,
    /** `GetProcessById(id).MainWindowHandle` */
    mainWindowOf: Int32 -> Outcome<IntPtr>,
    /** `Process.GetProcesses()` */
    processes: Outcome<seq<Process>>)

  /** `GetParentProcessId(processId)`: open the process and query its basic
      information; a throw while opening it propagates, a non-zero status
      throws InvalidOperationException, and the recorded parent id goes
      through the checked `ToInt32`. */
  function GetParentProcessId(s: OsSnapshot, processId: Int32): (r: Outcome<Int32>)
    ensures r.Returned? <==>
      (s.queryInformation(processId).Returned? &&
       s.queryInformation(processId).value.status == 0 &&
       FitsInInt32(s.queryInformation(processId).value.information.inheritedFromUniqueProcessId))
    ensures r.Returned? ==>
      r.value as IntPtr == s.queryInformation(processId).value.information.inheritedFromUniqueProcessId
    ensures s.queryInformation(processId).Returned? && s.queryInformation(processId).value.status != 0 ==>
      r == Threw(InvalidOperationException)
    ensures s.queryInformation(processId).Threw? ==> r == Threw(s.queryInformation(processId).exception)
  {
    match s.queryInformation(processId)
    case Threw(e) => Threw(e)
    case Returned(query) =>
      if query.status != 0 then Threw(InvalidOperationException)
      else ToInt32(query.information.inheritedFromUniqueProcessId)
  }

  /** The parent-window lookup: an id of 0 is not looked up, and a lookup that
      throws (either handler) or yields `Zero` offers nothing. */
  function ParentWindow(s: OsSnapshot, parentProcessId: Int32): Option<IntPtr> {
    if parentProcessId == 0 then None
    else match s.mainWindowOf(parentProcessId)
      case Threw(_) => None
      case Returned(handle) => if handle != Zero then Some(handle) else None
  }

  /** The handle `GetConsoleOrTerminalWindow` returns for a snapshot. */
  function ConsoleOrTerminalWindow(s: OsSnapshot): IntPtr {
    if s.consoleWindow != Zero then
      var ancestor := s.rootOwner(s.consoleWindow);
      if ancestor != Zero then ancestor else s.consoleWindow
    else match s.currentMainWindow
      case Threw(_) => Zero                           // outer catch
      case Returned(own) =>
        if own != Zero then own
        else match GetParentProcessId(s, s.currentProcessId)
          case Threw(_) => Zero                       // outer catch
          case Returned(parentProcessId) =>
            match ParentWindow(s, parentProcessId)
            case Some(handle) => handle
            case None =>
              match s.processes
              case Threw(_) => Zero                   // outer catch
              case Returned(processes) => ScanResult(processes)
  }

  /** Whether a call reaches the process scan (and so disposes entries). */
  predicate ScanReached(s: OsSnapshot) {
    s.consoleWindow == Zero && s.currentMainWindow == Returned(Zero) &&
    GetParentProcessId(s, s.currentProcessId).Returned? &&
    ParentWindow(s, GetParentProcessId(s, s.currentProcessId).value).None? &&
    s.processes.Returned?
  }

  /** How many entries of the enumeration a call disposes. */
  function Disposed(s: OsSnapshot): nat {
    if ScanReached(s) then Visited(s.processes.value) else 0
  }

  function Entries(s: OsSnapshot): set<Process> {
    if s.processes.Returned? then set p | p in s.processes.value else {}
  }

  /** The resolver as the source runs it: early returns, the inner handlers
      around the parent-window lookup, and the outer handler that turns any
      other exception into `Zero`. */
  method GetConsoleOrTerminalWindow(s: OsSnapshot) returns (handle: IntPtr)
    requires s.processes.Returned? ==> Distinct(s.processes.value)
    modifies Entries(s)
    ensures handle == ConsoleOrTerminalWindow(s)
    ensures s.processes.Returned? ==> forall i :: 0 <= i < |s.processes.value| ==>
      s.processes.value[i].disposeCount ==
        old(s.processes.value[i].disposeCount) + (if i < Disposed(s) then 1 else 0)
  {
    // Attempt 1: the console window, lifted to its root owner
    var consoleHandle := s.consoleWindow;
    if consoleHandle != Zero {
      var ancestorHandle := s.rootOwner(consoleHandle);
      if ancestorHandle != Zero {
        return ancestorHandle;
      } else {
        return consoleHandle;
      }
    }
    // Attempt 2: inside the outer try
    if s.currentMainWindow.Threw? {
      return Zero;
    }
    var own := s.currentMainWindow.value;
    if own != Zero {
      return own;
    }
    var parentProcessId := GetParentProcessId(s, s.currentProcessId);
    if parentProcessId.Threw? {
      return Zero;  // not caught by the inner handlers
    }
    if parentProcessId.value != 0 {
      var parentHandle := s.mainWindowOf(parentProcessId.value);
      if parentHandle.Returned? && parentHandle.value != Zero {
        return parentHandle.value;
      }
      // inner catch, or a zero handle: fall through to the scan
    }
    // Attempt 3: scan every process
    if s.processes.Threw? {
      return Zero;
    }
    handle := ScanProcesses(s.processes.value);
  }

  // ---------------------------------------------------------------------------
  // The chain as a list of tiers, first usable one wins

  /** What one tier contributes: a handle that ends the chain, nothing (go on),
      or an exception that escapes to the outer handler. */
  datatype TierOutcome = Usable(handle: IntPtr) | Unusable | Escaped

  /** The tiers in order: console window, own main window, parent's main
      window, process scan. */
  function Tiers(s: OsSnapshot): (tiers: seq<TierOutcome>)
    ensures |tiers| == 4
    ensures forall k :: 0 <= k < |tiers| && tiers[k].Usable? ==> tiers[k].handle != Zero
  {
    [ if s.consoleWindow == Zero then Unusable
      else if s.rootOwner(s.consoleWindow) != Zero then Usable(s.rootOwner(s.consoleWindow))
      else Usable(s.consoleWindow),
      match s.currentMainWindow
      case Threw(_) => Escaped
      case Returned(own) => if own != Zero then Usable(own) else Unusable,
      match GetParentProcessId(s, s.currentProcessId)
      case Threw(_) => Escaped
      case Returned(parentProcessId) =>
        match ParentWindow(s, parentProcessId)
        case Some(handle) => Usable(handle)
        case None => Unusable,
      match s.processes
      case Threw(_) => Escaped
      case Returned(processes) =>
        if ScanResult(processes) != Zero then Usable(ScanResult(processes)) else Unusable ]
  }

  /** Every tier before index `k` offered nothing and threw nothing. */
  predicate OnlyUnusableBefore(tiers: seq<TierOutcome>, k: nat)
    requires k <= |tiers|
  {
    forall j :: 0 <= j < k ==> tiers[j] == Unusable
  }

  /** Runs the tiers in order: the first usable handle is the answer, an
      escaping exception or running out of tiers gives `Zero`. */
  function FirstUsable(tiers: seq<TierOutcome>): (r: IntPtr)
    ensures r != Zero ==>
      exists k :: 0 <= k < |tiers| && tiers[k] == Usable(r) &&
        forall j :: 0 <= j < k ==> tiers[j] == Unusable
    ensures (forall k :: 0 <= k < |tiers| ==> tiers[k] != Escaped && !tiers[k].Usable?) ==> r == Zero
    ensures forall k :: 0 <= k < |tiers| && tiers[k].Usable? && OnlyUnusableBefore(tiers, k) ==>
      r == tiers[k].handle
    ensures forall k :: 0 <= k < |tiers| && tiers[k] == Escaped && OnlyUnusableBefore(tiers, k) ==>
      r == Zero
  {
    if tiers == [] then Zero
    else match tiers[0]
      case Usable(handle) => handle
      case Escaped => Zero
      case Unusable => FirstUsable(tiers[1..])
  }

  /** The source's chain is exactly "first usable tier, in order". */
  lemma ChainIsFirstUsableTier(s: OsSnapshot)
    ensures ConsoleOrTerminalWindow(s) == FirstUsable(Tiers(s))
  {
    var tiers := Tiers(s);
    var rest1, rest2, rest3 := tiers[1..], tiers[2..], tiers[3..];
    assert rest1[0] == tiers[1] && rest1[1..] == rest2;
    assert rest2[0] == tiers[2] && rest2[1..] == rest3;
    assert rest3[0] == tiers[3] && rest3[1..] == [];
    assert FirstUsable(rest3) == (if tiers[3].Usable? then tiers[3].handle else Zero);
    assert FirstUsable(rest2) == (if tiers[2] == Unusable then FirstUsable(rest3) else if tiers[2].Usable? then tiers[2].handle else Zero);
    assert FirstUsable(rest1) == (if tiers[1] == Unusable then FirstUsable(rest2) else if tiers[1].Usable? then tiers[1].handle else Zero);
    assert FirstUsable(tiers) == (if tiers[0] == Unusable then FirstUsable(rest1) else if tiers[0].Usable? then tiers[0].handle else Zero);
    if s.consoleWindow == Zero && s.currentMainWindow == Returned(Zero) {
      assert tiers[0] == Unusable && tiers[1] == Unusable;
      assert FirstUsable(tiers) == FirstUsable(rest2);
    }
  }

  /** The result is the handle of the first tier that offers one, provided
      every tier before it offered nothing and threw nothing; a tier that throws
      first gives `Zero`. The result is non-zero exactly when such a usable
      tier exists. */
  lemma ResultComesFromFirstUsableTier(s: OsSnapshot)
    ensures forall k :: 0 <= k < 4 && Tiers(s)[k].Usable? && OnlyUnusableBefore(Tiers(s), k) ==>
      ConsoleOrTerminalWindow(s) == Tiers(s)[k].handle
    ensures forall k :: 0 <= k < 4 && Tiers(s)[k] == Escaped && OnlyUnusableBefore(Tiers(s), k) ==>
      ConsoleOrTerminalWindow(s) == Zero
    ensures ConsoleOrTerminalWindow(s) != Zero <==>
      exists k :: 0 <= k < 4 && Tiers(s)[k].Usable? && OnlyUnusableBefore(Tiers(s), k)
  {
    ChainIsFirstUsableTier(s);
  }

  /** When no tier offers a handle the result is `Zero` (and nothing is thrown:
      the function is total). */
  lemma ZeroWhenNoTierIsUsable(s: OsSnapshot)
    requires forall k :: 0 <= k < 4 ==> !Tiers(s)[k].Usable?
    ensures ConsoleOrTerminalWindow(s) == Zero
  {
    ChainIsFirstUsableTier(s);
  }

  // ---------------------------------------------------------------------------
  // One lemma per tier

  /** A console window decides the result: its root owner, or the console
      window itself when the root owner is `Zero`. No other part of the
      snapshot is consulted. */
  lemma ConsoleWindowDecides(s: OsSnapshot, t: OsSnapshot)
    requires s.consoleWindow != Zero
    requires t.consoleWindow == s.consoleWindow && t.rootOwner(t.consoleWindow) == s.rootOwner(s.consoleWindow)
    ensures ConsoleOrTerminalWindow(s) ==
      (if s.rootOwner(s.consoleWindow) != Zero then s.rootOwner(s.consoleWindow) else s.consoleWindow)
    ensures ConsoleOrTerminalWindow(t) == ConsoleOrTerminalWindow(s)
    ensures !ScanReached(s)
  {
  }

  /** With no console window, a non-zero own main window is the result, and
      neither the parent id nor the enumeration is consulted. */
  lemma OwnMainWindowDecides(s: OsSnapshot, t: OsSnapshot)
    requires s.consoleWindow == Zero && s.currentMainWindow.Returned? && s.currentMainWindow.value != Zero
    requires t.consoleWindow == Zero && t.currentMainWindow == s.currentMainWindow
    ensures ConsoleOrTerminalWindow(s) == s.currentMainWindow.value
    ensures ConsoleOrTerminalWindow(t) == ConsoleOrTerminalWindow(s)
    ensures !ScanReached(s)
  {
  }

  /** A parent process with a non-zero main window gives that window. */
  lemma ParentMainWindowDecides(s: OsSnapshot, parentProcessId: Int32)
    requires s.consoleWindow == Zero && s.currentMainWindow == Returned(Zero)
    requires GetParentProcessId(s, s.currentProcessId) == Returned(parentProcessId)
    requires parentProcessId != 0
    requires s.mainWindowOf(parentProcessId).Returned? && s.mainWindowOf(parentProcessId).value != Zero
    ensures ConsoleOrTerminalWindow(s) == s.mainWindowOf(parentProcessId).value
    ensures !ScanReached(s)
  {
  }

  /** A parent id of 0, a parent lookup that throws, or a parent main window
      of `Zero` all fall through to the scan. */
  lemma ParentTierFallsThroughToScan(s: OsSnapshot, parentProcessId: Int32)
    requires s.consoleWindow == Zero && s.currentMainWindow == Returned(Zero)
    requires GetParentProcessId(s, s.currentProcessId) == Returned(parentProcessId)
    requires parentProcessId == 0 || s.mainWindowOf(parentProcessId).Threw? ||
             s.mainWindowOf(parentProcessId) == Returned(Zero)
    ensures ConsoleOrTerminalWindow(s) ==
      match s.processes
      case Threw(_) => Zero
      case Returned(processes) => ScanResult(processes)
    ensures s.processes.Returned? ==> ScanReached(s)
  {
  }

  /** A failing parent-id query (the process cannot be opened, the query
      returns a non-zero status, or the id does not fit in 32 bits) is not
      caught by the handlers around the parent lookup: it reaches the outer
      handler, the result is `Zero`, and the scan never runs, whatever the
      enumeration would have found. */
  lemma ParentIdFailureSkipsScan(s: OsSnapshot, processes: seq<Process>)
    requires s.consoleWindow == Zero && s.currentMainWindow == Returned(Zero)
    requires GetParentProcessId(s, s.currentProcessId).Threw?
    ensures ConsoleOrTerminalWindow(s) == Zero
    ensures ConsoleOrTerminalWindow(s.(processes := Returned(processes))) == Zero
    ensures !ScanReached(s) && Disposed(s) == 0
  {
  }

  /** A recorded parent id outside 32 bits (0x8000_0000 or more) makes the
      checked `ToInt32` throw; that exception too reaches the outer handler,
      so the result is `Zero` and nothing is disposed. */
  lemma ParentIdOverflowGivesZero(s: OsSnapshot, query: QueryResult)
    requires s.consoleWindow == Zero && s.currentMainWindow == Returned(Zero)
    requires s.queryInformation(s.currentProcessId) == Returned(query) && query.status == 0
    requires !FitsInInt32(query.information.inheritedFromUniqueProcessId)
    ensures GetParentProcessId(s, s.currentProcessId) == Threw(OverflowException)
    ensures ConsoleOrTerminalWindow(s) == Zero && Disposed(s) == 0
  {
  }

  /** When tiers 1 to 3 found nothing, the result is the scan's: the first
      shell or terminal entry with a non-zero main window, in enumeration
      order. */
  lemma ScanDecidesLastTier(s: OsSnapshot, k: nat)
    requires ScanReached(s)
    requires k < |s.processes.value| && Candidate(s.processes.value[k]).Some?
    requires forall j :: 0 <= j < k ==> Candidate(s.processes.value[j]).None?
    ensures Returned(ConsoleOrTerminalWindow(s)) == s.processes.value[k].mainWindowHandle
    ensures Disposed(s) == k + 1
  {
  }

  /** One process named "powershell" with a non-zero main window among
      unrelated ones is found once tiers 1 to 3 are exhausted. */
  lemma SinglePowershellIsFound(s: OsSnapshot, k: nat, window: IntPtr)
    requires ScanReached(s)
    requires k < |s.processes.value|
    requires s.processes.value[k].processName == Returned("powershell")
    requires s.processes.value[k].mainWindowHandle == Returned(window) && window != Zero
    requires forall j :: 0 <= j < |s.processes.value| && j != k ==> Candidate(s.processes.value[j]).None?
    ensures ConsoleOrTerminalWindow(s) == window
  {
  }

  /** When the enumeration itself throws, the result is `Zero`. */
  lemma EnumerationFailureGivesZero(s: OsSnapshot)
    requires s.consoleWindow == Zero && s.currentMainWindow == Returned(Zero)
    requires GetParentProcessId(s, s.currentProcessId).Returned?
    requires ParentWindow(s, GetParentProcessId(s, s.currentProcessId).value).None?
    requires s.processes.Threw?
    ensures ConsoleOrTerminalWindow(s) == Zero && Disposed(s) == 0
  {
  }
}
