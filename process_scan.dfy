/**
  The last-resort tier of the resolver: a scan over the processes returned by
  `Process.GetProcesses()`, looking for a shell or terminal with a main window.
  Each entry's name and main-window reads may throw; a throw skips that entry.
  Every visited entry is disposed exactly once, the returned one included.
 */
module ProcessScan {
  import opened NativeTypes

  /** One `System.Diagnostics.Process` returned by the enumeration. Its name and
      main-window handle are what the OS reports when they are read (or the
      exception the read throws); `disposeCount` records the calls to Dispose. */
  class Process {
    const processName: Outcome<string>
    const mainWindowHandle: Outcome<IntPtr>
    var disposeCount: nat

    constructor (name: Outcome<string>, window: Outcome<IntPtr>)
      ensures processName == name && mainWindowHandle == window && disposeCount == 0
    {
      processName := name;
      mainWindowHandle := window;
      disposeCount := 0;
    }

    method Dispose()
      modifies this
      ensures disposeCount == old(disposeCount) + 1
    {
      disposeCount := disposeCount + 1;
    }
  }

  /** The substrings that mark a known shell or terminal, in the order the code checks them. */
  const ShellNames: seq<string> := ["cmd", "powershell", "terminal", "explorer"]

  /** A process name counts as a shell or terminal when it contains one of
      `ShellNames`, compared ordinally (case-sensitively). */
  predicate IsShellName(name: string) {
    Contains(name, "cmd") || Contains(name, "powershell") ||
    Contains(name, "terminal") || Contains(name, "explorer")
  }

  lemma IsShellNameMeansSomeShellName(name: string)
    ensures IsShellName(name) <==> exists k :: 0 <= k < |ShellNames| && Contains(name, ShellNames[k])
  {
    if IsShellName(name) {
      if Contains(name, "cmd") { assert Contains(name, ShellNames[0]); }
      else if Contains(name, "powershell") { assert Contains(name, ShellNames[1]); }
      else if Contains(name, "terminal") { assert Contains(name, ShellNames[2]); }
      else { assert Contains(name, ShellNames[3]); }
    }
  }

  /** A name without the letters 'c', 'p', 't' and 'x' in lower case is not a
      shell name: each of `ShellNames` has one of them. */
  lemma NotAShellName(name: string)
    requires 'c' !in name && 'p' !in name && 't' !in name && 'x' !in name
    ensures !IsShellName(name)
  {
    NoOccurrence(name, "cmd", 0);
    NoOccurrence(name, "powershell", 0);
    NoOccurrence(name, "terminal", 0);
    NoOccurrence(name, "explorer", 1);
  }

  /** Matching is ordinal: "WindowsTerminal" contains "Terminal" but not
      "terminal", so Windows Terminal's own process name is not a shell name. */
  lemma WindowsTerminalIsNotAShellName()
    ensures Contains("WindowsTerminal", "Terminal")
    ensures !IsShellName("WindowsTerminal")
  {
    assert OccursAt("WindowsTerminal", "Terminal", 7);
    NotAShellName("WindowsTerminal");
  }

  /** Neither is "PowerShell", capitalised. */
  lemma CapitalisedPowerShellIsNotAShellName()
    ensures !IsShellName("PowerShell")
  {
    NotAShellName("PowerShell");
  }

  /** The lower-case names do match, also inside a longer name. */
  lemma LowerCaseShellNames()
    ensures IsShellName("powershell") && IsShellName("cmd") && IsShellName("explorer")
    ensures IsShellName("windowsterminal")
  {
    assert OccursAt("powershell", "powershell", 0);
    assert OccursAt("cmd", "cmd", 0);
    assert OccursAt("explorer", "explorer", 0);
    assert OccursAt("windowsterminal", "terminal", 7);
  }

  /** A string that lacks one of `value`'s characters does not contain `value`. */
  lemma NoOccurrence(s: string, value: string, k: nat)
    requires k < |value| && value[k] !in s
    ensures !Contains(s, value)
  {
  }

  /** What one entry offers the scan: its main-window handle when its name reads
      as a shell or terminal and that handle reads as non-zero; nothing when a
      read throws or a condition fails. The handle is read only when the name
      matches, as `&&` short-circuits. */
  function Candidate(p: Process): (r: Option<IntPtr>)
    ensures r.Some? <==>
      (p.processName.Returned? && IsShellName(p.processName.value) &&
       p.mainWindowHandle.Returned? && p.mainWindowHandle.value != Zero)
    ensures r.Some? ==> Returned(r.value) == p.mainWindowHandle
  {
    match p.processName
    case Threw(_) => None
    case Returned(name) =>
      if !IsShellName(name) then None
      else match p.mainWindowHandle
        case Threw(_) => None
        case Returned(handle) => if handle != Zero then Some(handle) else None
  }

  /** The index of the first entry, in enumeration order, that offers a handle. */
  function FirstMatch(processes: seq<Process>): (r: Option<nat>)
    ensures r.Some? ==> r.value < |processes| && Candidate(processes[r.value]).Some?
    ensures r.Some? ==> forall j :: 0 <= j < r.value ==> Candidate(processes[j]).None?
    ensures r.None? ==> forall j :: 0 <= j < |processes| ==> Candidate(processes[j]).None?
  {
    if processes == [] then None
    else if Candidate(processes[0]).Some? then Some(0)
    else match FirstMatch(processes[1..])
      case None => None
      case Some(k) => Some(k + 1)
  }

  /** The handle the scan returns, `Zero` when no entry offers one. */
  function ScanResult(processes: seq<Process>): IntPtr {
    match FirstMatch(processes)
    case None => Zero
    case Some(k) => Candidate(processes[k]).value
  }

  /** How many entries the scan visits (and so disposes): up to and including
      the first match, or all of them. */
  function Visited(processes: seq<Process>): (n: nat)
    ensures n <= |processes|
  {
    match FirstMatch(processes)
    case None => |processes|
    case Some(k) => k + 1
  }

  /** The scan returns the handle of the first qualifying entry and visits
      exactly the entries up to it. */
  lemma ScanFindsFirstQualifying(processes: seq<Process>, k: nat)
    requires k < |processes| && Candidate(processes[k]).Some?
    requires forall j :: 0 <= j < k ==> Candidate(processes[j]).None?
    ensures ScanResult(processes) == Candidate(processes[k]).value != Zero
    ensures Returned(ScanResult(processes)) == processes[k].mainWindowHandle
    ensures Visited(processes) == k + 1
  {
  }

  /** With no qualifying entry the scan returns `Zero` after visiting them all. */
  lemma ScanWithoutMatch(processes: seq<Process>)
    requires forall j :: 0 <= j < |processes| ==> Candidate(processes[j]).None?
    ensures ScanResult(processes) == Zero && Visited(processes) == |processes|
  {
  }

  /** A non-zero scan result is the main window of an entry that qualifies. */
  lemma ScanResultQualifies(processes: seq<Process>)
    ensures ScanResult(processes) == Zero <==>
      forall j :: 0 <= j < |processes| ==> Candidate(processes[j]).None?
    ensures ScanResult(processes) != Zero ==>
      exists j :: 0 <= j < |processes| && Candidate(processes[j]) == Some(ScanResult(processes))
  {
  }

  lemma ScanResultCons(p: Process, rest: seq<Process>)
    ensures ScanResult([p] + rest) == if Candidate(p).Some? then Candidate(p).value else ScanResult(rest)
    ensures Visited([p] + rest) == if Candidate(p).Some? then 1 else 1 + Visited(rest)
  {
  }

  /** An entry whose reads throw (or that does not qualify) never changes what
      the scan finds: removing it from anywhere gives the same result. */
  lemma {:induction false} SkippedEntryIsIrrelevant(before: seq<Process>, p: Process, after: seq<Process>)
    requires Candidate(p).None?
    ensures ScanResult(before + [p] + after) == ScanResult(before + after)
  {
    if before == [] {
      assert before + [p] + after == [p] + after;
      assert before + after == after;
      ScanResultCons(p, after);
    } else {
      var q := before[0];
      SkippedEntryIsIrrelevant(before[1..], p, after);
      assert before + [p] + after == [q] + (before[1..] + [p] + after);
      assert before + after == [q] + (before[1..] + after);
      ScanResultCons(q, before[1..] + [p] + after);
      ScanResultCons(q, before[1..] + after);
    }
  }

  /** The entries are distinct objects (GetProcesses allocates one per process). */
  predicate Distinct(processes: seq<Process>) {
    forall i, j :: 0 <= i < j < |processes| ==> processes[i] != processes[j]
  }

  /** The `foreach` over the enumeration: inspect each entry inside a
      try/catch/finally, return at the first shell or terminal with a non-zero
      main window, skip an entry whose reads throw, and dispose every visited
      entry in `finally`. */
  method ScanProcesses(processes: seq<Process>) returns (handle: IntPtr)
    requires Distinct(processes)
    modifies set p | p in processes
    ensures handle == ScanResult(processes)
    ensures forall i :: 0 <= i < |processes| ==>
      processes[i].disposeCount ==
        old(processes[i].disposeCount) + (if i < Visited(processes) then 1 else 0)
  {
    var i := 0;
    while i < |processes|
      invariant 0 <= i <= |processes|
      invariant forall j :: 0 <= j < i ==> Candidate(processes[j]).None?
      invariant forall j :: 0 <= j < |processes| ==>
        processes[j].disposeCount == old(processes[j].disposeCount) + (if j < i then 1 else 0)
    {
      var possibleParent := processes[i];
      var found := false;
      var window: IntPtr := Zero;
      match possibleParent.processName {
        case Threw(_) =>
          // catch: skip this process
        case Returned(name) =>
          if IsShellName(name) {
            match possibleParent.mainWindowHandle {
              case Threw(_) =>
                // catch: skip this process
              case Returned(w) =>
                if w != Zero {
                  found, window := true, w;
                }
            }
          }
      }
      possibleParent.Dispose();  // finally
      if found {
        ScanFindsFirstQualifying(processes, i);
        return window;
      }
      i := i + 1;
    }
    ScanWithoutMatch(processes);
    return Zero;
  }
}
