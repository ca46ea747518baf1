# Window-handle resolution for the WAM sign-in broker

The authentication service parents its interactive sign-in window to a real
on-screen window, even when it runs as a headless console process.
`GetConsoleOrTerminalWindow` produces that handle. It tries a fixed chain of
sources and returns at the first one that gives a non-zero handle:

1. the console window, lifted to its root owner (`GetAncestor(…, GetRootOwner)`),
   with the console handle itself as the fallback;
2. the current process's own main window;
3. the parent process's main window, found through `GetParentProcessId`, which
   reads `InheritedFromUniqueProcessId` with `NtQueryInformationProcess`;
4. a scan of every running process for a name containing "cmd", "powershell",
   "terminal" or "explorer" with a non-zero main window;
5. otherwise `IntPtr.Zero`.

This project models that chain in Dafny and proves its ordering and
error-handling properties.

- `native_types.dfy` (module `NativeTypes`) holds the .NET value types.
  `IntPtr` is a 64-bit signed newtype and `Int32` a 32-bit one.
  `Outcome<T>` is a call that returns a value or throws an exception.
  It also models the checked `IntPtr.ToInt32` and the ordinal
  `string.Contains(string)`.
- `process_scan.dfy` (module `ProcessScan`) models the scan.
  `Process` is a class with the name and main-window reads as constants and a
  `disposeCount` field that `Dispose` increments.
  `FirstMatch`, `ScanResult` and `Visited` specify the scan.
  The method `ScanProcesses` is the `foreach` with `try/catch/continue/finally
  Dispose`, and it is proved against them.
- `window_resolution.dfy` (module `WindowResolution`) models the chain.
  `OsSnapshot` holds everything the chain reads from the OS.
  `GetParentProcessId` is a function over the snapshot.
  `ConsoleOrTerminalWindow` is the chain as a function.
  The method `GetConsoleOrTerminalWindow` runs the chain with early returns and
  is proved equal to that function, with the disposal effect on every entry.
  `Tiers` and `FirstUsable` are an independent "first usable tier wins"
  reading, and `ChainIsFirstUsableTier` proves the two agree.

The OS calls cannot be seen, so they are fields of `OsSnapshot`:

- `GetConsoleWindow`;
- `GetAncestor` in root-owner mode, as a function of the handle;
- the current process's id and main-window read;
- the process open plus `NtQueryInformationProcess`, as a function of the id;
- `GetProcessById(id).MainWindowHandle`, as a function of the id;
- `GetProcesses`.

Each read that can throw is an `Outcome`. The function is total, so
`ConsoleOrTerminalWindow` never throws. It is also deterministic: two calls on
the same snapshot give the same handle. Disposal does not change what the
chain reads, so the method returns the same handle whatever the entries'
dispose counts are.

Behaviour the code determines, which a quick reading could miss:

- A failing `GetParentProcessId` at line 142 is not inside the inner
  `try` (lines 147-165). Its exception reaches the outer `catch` at line 197.
  The result is then `Zero` and the process scan never runs
  (`ParentIdFailureSkipsScan`).
  A parent lookup that throws does reach the scan; this failure does not.
- The query fails in three ways. The process cannot be opened or its handle
  read (line 211 and `process.Handle` at line 214). The status is non-zero
  (line 216). The recorded parent id does not fit in 32 bits, because on a
  64-bit process `IntPtr.ToInt32` is a checked conversion (line 221).
- Name matching is ordinal and case-sensitive.
  "WindowsTerminal" and "PowerShell" are not shell names; "powershell" and
  "windowsterminal" are.
- The main-window handle of an entry is read only when its name matches,
  because `&&` short-circuits. An entry whose handle read would throw but whose
  name does not match is skipped without that read.
- Every visited entry is disposed exactly once, the returned entry included.
  Entries after the match are neither visited nor disposed.

## Model

| member | source | states |
|---|---|---|
| `NativeTypes.ToInt32` | src/entra-id-local-wam/Den.Dev.LocalMCP.WAM/Den.Dev.LocalMCP.WAM/AuthenticationService.cs:221 | the narrowing never truncates: a returned value widens back to the input; it throws OverflowException only for a value outside 32 bits |
| `NativeTypes.ToInt32OfWidened` | src/entra-id-local-wam/Den.Dev.LocalMCP.WAM/Den.Dev.LocalMCP.WAM/AuthenticationService.cs:221 | every 32-bit parent id read back from the pointer-sized field is returned unchanged |
| `NativeTypes.Contains` | src/entra-id-local-wam/Den.Dev.LocalMCP.WAM/Den.Dev.LocalMCP.WAM/AuthenticationService.cs:176-179 | `s.Contains(value)` holds exactly when `value` occurs at some index of `s`, character for character |
| `ProcessScan.IsShellNameMeansSomeShellName` | src/entra-id-local-wam/Den.Dev.LocalMCP.WAM/Den.Dev.LocalMCP.WAM/AuthenticationService.cs:176-179 | a name matches exactly when it contains one of the four fixed substrings |
| `ProcessScan.NotAShellName` | src/entra-id-local-wam/Den.Dev.LocalMCP.WAM/Den.Dev.LocalMCP.WAM/AuthenticationService.cs:176-179 | a name without lower-case 'c', 'p', 't' and 'x' matches none of the four substrings |
| `ProcessScan.WindowsTerminalIsNotAShellName` | src/entra-id-local-wam/Den.Dev.LocalMCP.WAM/Den.Dev.LocalMCP.WAM/AuthenticationService.cs:178 | "WindowsTerminal" contains "Terminal" but is not matched: the comparison is case-sensitive |
| `ProcessScan.CapitalisedPowerShellIsNotAShellName` | src/entra-id-local-wam/Den.Dev.LocalMCP.WAM/Den.Dev.LocalMCP.WAM/AuthenticationService.cs:177 | "PowerShell" is not matched by "powershell" |
| `ProcessScan.LowerCaseShellNames` | src/entra-id-local-wam/Den.Dev.LocalMCP.WAM/Den.Dev.LocalMCP.WAM/AuthenticationService.cs:176-179 | "powershell", "cmd" and "explorer" match, and so does "windowsterminal" by substring |
| `ProcessScan.Process.Dispose` | src/entra-id-local-wam/Den.Dev.LocalMCP.WAM/Den.Dev.LocalMCP.WAM/AuthenticationService.cs:191-194 | each call to Dispose adds one to the entry's dispose count |
| `ProcessScan.Candidate` | src/entra-id-local-wam/Den.Dev.LocalMCP.WAM/Den.Dev.LocalMCP.WAM/AuthenticationService.cs:173-190 | an entry qualifies exactly when its name reads (no throw) as a shell name and its main-window handle then reads as non-zero; the handle offered is the one read |
| `ProcessScan.FirstMatch` | src/entra-id-local-wam/Den.Dev.LocalMCP.WAM/Den.Dev.LocalMCP.WAM/AuthenticationService.cs:171-190 | the index found is a qualifying entry with no qualifying entry before it; no index means no entry qualifies |
| `ProcessScan.Visited` | src/entra-id-local-wam/Den.Dev.LocalMCP.WAM/Den.Dev.LocalMCP.WAM/AuthenticationService.cs:171-195 | the scan visits at most the entries there are |
| `ProcessScan.ScanFindsFirstQualifying` | src/entra-id-local-wam/Den.Dev.LocalMCP.WAM/Den.Dev.LocalMCP.WAM/AuthenticationService.cs:171-184 | the scan returns the non-zero main window of the first qualifying entry in enumeration order and visits exactly the entries up to and including it |
| `ProcessScan.ScanWithoutMatch` | src/entra-id-local-wam/Den.Dev.LocalMCP.WAM/Den.Dev.LocalMCP.WAM/AuthenticationService.cs:171-195 | with no qualifying entry the scan visits every entry and returns `Zero` |
| `ProcessScan.ScanResultQualifies` | src/entra-id-local-wam/Den.Dev.LocalMCP.WAM/Den.Dev.LocalMCP.WAM/AuthenticationService.cs:176-183 | the scan result is `Zero` exactly when no entry qualifies; otherwise it is the handle a qualifying entry offers |
| `ProcessScan.SkippedEntryIsIrrelevant` | src/entra-id-local-wam/Den.Dev.LocalMCP.WAM/Den.Dev.LocalMCP.WAM/AuthenticationService.cs:185-190 | an entry whose reads throw (or that does not qualify) never aborts the scan: removing it from any position leaves the result unchanged |
| `ProcessScan.ScanProcesses` | src/entra-id-local-wam/Den.Dev.LocalMCP.WAM/Den.Dev.LocalMCP.WAM/AuthenticationService.cs:171-195 | the loop returns the scan result, disposes each entry up to and including the returned one exactly once, and leaves later entries untouched |
| `WindowResolution.GetParentProcessId` | src/entra-id-local-wam/Den.Dev.LocalMCP.WAM/Den.Dev.LocalMCP.WAM/AuthenticationService.cs:209-222 | the query succeeds exactly when the process opens, the status is 0 and the recorded parent id fits in 32 bits, and then returns that id; a non-zero status throws InvalidOperationException; a failure to open the process propagates its exception |
| `WindowResolution.ParentIdOverflowGivesZero` | src/entra-id-local-wam/Den.Dev.LocalMCP.WAM/Den.Dev.LocalMCP.WAM/AuthenticationService.cs:221 | a recorded parent id outside 32 bits makes `ToInt32` throw OverflowException; the chain then returns `Zero` and disposes nothing |
| `WindowResolution.GetConsoleOrTerminalWindow` | src/entra-id-local-wam/Den.Dev.LocalMCP.WAM/Den.Dev.LocalMCP.WAM/AuthenticationService.cs:103-204 | the method returns the chain's result for the snapshot, disposes exactly the entries the scan visits (none when the scan is not reached) and no others |
| `WindowResolution.Tiers` | src/entra-id-local-wam/Den.Dev.LocalMCP.WAM/Den.Dev.LocalMCP.WAM/AuthenticationService.cs:108-195 | there are four tiers, and every handle a tier offers is non-zero |
| `WindowResolution.FirstUsable` | src/entra-id-local-wam/Den.Dev.LocalMCP.WAM/Den.Dev.LocalMCP.WAM/AuthenticationService.cs:103-204 | the first usable tier with only unusable tiers before it gives the result; an escaping tier with only unusable tiers before it gives `Zero`; a non-zero result always comes from such a usable tier; with no usable and no escaping tier the result is `Zero` |
| `WindowResolution.ChainIsFirstUsableTier` | src/entra-id-local-wam/Den.Dev.LocalMCP.WAM/Den.Dev.LocalMCP.WAM/AuthenticationService.cs:103-204 | the chain with its early returns and handlers equals "first usable tier, in order; an escaping exception gives `Zero`" |
| `WindowResolution.ResultComesFromFirstUsableTier` | src/entra-id-local-wam/Den.Dev.LocalMCP.WAM/Den.Dev.LocalMCP.WAM/AuthenticationService.cs:103-204 | the chain returns the first usable tier's handle and gives `Zero` when a tier throws first; the result is non-zero exactly when some tier offers a handle with only unusable tiers before it |
| `WindowResolution.ZeroWhenNoTierIsUsable` | src/entra-id-local-wam/Den.Dev.LocalMCP.WAM/Den.Dev.LocalMCP.WAM/AuthenticationService.cs:197-203 | when no tier offers a handle the result is `Zero`, returned and not thrown |
| `WindowResolution.ConsoleWindowDecides` | src/entra-id-local-wam/Den.Dev.LocalMCP.WAM/Den.Dev.LocalMCP.WAM/AuthenticationService.cs:108-126 | a non-zero console handle gives its root owner if that is non-zero, else the console handle; snapshots that agree on these two give the same result, so no later tier is consulted, and the scan is not reached |
| `WindowResolution.OwnMainWindowDecides` | src/entra-id-local-wam/Den.Dev.LocalMCP.WAM/Den.Dev.LocalMCP.WAM/AuthenticationService.cs:131-139 | with no console window, a non-zero own main window is the result whatever the parent-id query and the enumeration would give |
| `WindowResolution.ParentMainWindowDecides` | src/entra-id-local-wam/Den.Dev.LocalMCP.WAM/Den.Dev.LocalMCP.WAM/AuthenticationService.cs:142-156 | a non-zero parent id whose process has a non-zero main window gives that window, and the scan is not reached |
| `WindowResolution.ParentTierFallsThroughToScan` | src/entra-id-local-wam/Den.Dev.LocalMCP.WAM/Den.Dev.LocalMCP.WAM/AuthenticationService.cs:145-170 | a parent id of 0, a parent lookup that throws, or a parent main window of `Zero` each leads to the scan, whose result is the answer |
| `WindowResolution.ParentIdFailureSkipsScan` | src/entra-id-local-wam/Den.Dev.LocalMCP.WAM/Den.Dev.LocalMCP.WAM/AuthenticationService.cs:142-203 | a failing parent-id query gives `Zero` for any enumeration: the scan is not reached and nothing is disposed |
| `WindowResolution.ScanDecidesLastTier` | src/entra-id-local-wam/Den.Dev.LocalMCP.WAM/Den.Dev.LocalMCP.WAM/AuthenticationService.cs:168-184 | once the scan is reached, the result is the main window of the first qualifying entry, and the entries up to and including it are disposed |
| `WindowResolution.SinglePowershellIsFound` | src/entra-id-local-wam/Den.Dev.LocalMCP.WAM/Den.Dev.LocalMCP.WAM/AuthenticationService.cs:176-183 | a single "powershell" entry with a non-zero window among non-qualifying entries is the result once tiers 1 to 3 find nothing |
| `WindowResolution.EnumerationFailureGivesZero` | src/entra-id-local-wam/Den.Dev.LocalMCP.WAM/Den.Dev.LocalMCP.WAM/AuthenticationService.cs:170-203 | when `GetProcesses` itself throws, the result is `Zero` and nothing is disposed |

## Left out

- `CreateAsync` and `AcquireTokenAsync` (lines 23-78) are asynchronous calls into the MSAL client, the broker and the token-cache file. That code is not part of this model.
- `GetConsoleWindow`, `GetAncestor` and `NtQueryInformationProcess` (lines 97-101, 206-207) run in user32, kernel32 and ntdll. They are inputs of `OsSnapshot`; window-manager ancestry is not modelled.
- The `PROCESS_BASIC_INFORMATION` layout and its marshalling (lines 224-233): only `InheritedFromUniqueProcessId` is kept.
- All `_logger` calls (and the static logger set at lines 13, 19): they do not affect the result.
- The process is taken to be 64-bit: `IntPtr` has 64 bits, so `ToInt32` can overflow. In a 32-bit process that conversion cannot fail.
- Disposal of the current process and the parent process objects (`using var`, lines 131 and 149) is not modelled. Only the scan's per-entry `Dispose` is.
- Process-id recycling: the parent id is whatever the query reports. As in the code, no start-time check is made.
- The enumeration order and each entry's reads are inputs. A name or handle read is one value per entry, because `Process` caches what it reads.
- The kinds of exceptions are recorded, but every handler catches `Exception`. So the `ArgumentException` and `Exception` handlers at lines 158-165 are one path in the model.
