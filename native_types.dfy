/**
  The .NET value types and library primitives that the window-handle resolver
  depends on: pointer-sized and 32-bit integers, the "returned or threw"
  outcome of a call that may raise an exception, the checked narrowing
  `IntPtr.ToInt32`, and the ordinal `string.Contains(string)`.
 */
module NativeTypes {

  /** `IntPtr` in a 64-bit process: window handles and pointer-sized fields. */
  newtype IntPtr = x: int | -0x8000_0000_0000_0000 <= x < 0x8000_0000_0000_0000

  /** `int` (System.Int32): process ids. */
  newtype Int32 = x: int | -0x8000_0000 <= x < 0x8000_0000

  /** `IntPtr.Zero`, the "no window" sentinel. */
  const Zero: IntPtr := 0

  /** The exception types the resolver's calls can raise. Every handler in the
      resolver catches `Exception`, so the kind is carried only for the record. */
  datatype Exception =
    | ArgumentException          // Process.GetProcessById on an id with no process
    | InvalidOperationException  // a non-zero NTSTATUS, or reading a process that has exited
    | OverflowException          // IntPtr.ToInt32 on a value that does not fit in 32 bits
    | Win32Exception             // access denied while opening another process
    | OtherException

  /** The outcome of a call that either returns a value or throws. */
  datatype Outcome<+T> = Returned(value: T) | Threw(exception: Exception)

  datatype Option<+T> = None | Some(value: T)

  predicate FitsInInt32(p: IntPtr) {
    -0x8000_0000 <= p as int < 0x8000_0000
  }

  /** `IntPtr.ToInt32()` in a 64-bit process is a checked conversion: it never
      truncates, and throws OverflowException when the value is out of range. */
  function ToInt32(p: IntPtr): (r: Outcome<Int32>)
    ensures r.Returned? ==> r.value as IntPtr == p
    ensures r.Threw? ==> r.exception == OverflowException && !FitsInInt32(p)
  {
    if FitsInInt32(p) then Returned(p as Int32) else Threw(OverflowException)
  }

  /** Widening a 32-bit value to `IntPtr` and narrowing it back gives it back. */
  lemma ToInt32OfWidened(x: Int32)
    ensures ToInt32(x as IntPtr) == Returned(x)
  {
  }

  /** `value` occurs in `s` starting at index `i`. */
  predicate OccursAt(s: string, value: string, i: int) {
    0 <= i <= |s| - |value| && s[i..i + |value|] == value
  }

  /** `s.Contains(value)`: ordinal, hence case-sensitive, substring search. */
  function Contains(s: string, value: string): (r: bool)
    ensures r <==> exists i :: OccursAt(s, value, i)
    decreases |s|
  {
    if |value| > |s| then
      false
    else if s[..|value|] == value then
      assert OccursAt(s, value, 0);
      true
    else
      ContainsShift(s, value);
      Contains(s[1..], value)
  }

  /** An occurrence in `s` strictly after index 0 is an occurrence in `s[1..]`, and back. */
  lemma ContainsShift(s: string, value: string)
    requires |value| <= |s| && s[..|value|] != value
    ensures (exists i :: OccursAt(s, value, i)) <==> (exists i :: OccursAt(s[1..], value, i))
  {
    if i :| OccursAt(s, value, i) {
      assert i != 0;
      assert s[1..][i - 1..i - 1 + |value|] == s[i..i + |value|];
      assert OccursAt(s[1..], value, i - 1);
    }
    if i :| OccursAt(s[1..], value, i) {
      assert s[1..][i..i + |value|] == s[i + 1..i + 1 + |value|];
      assert OccursAt(s, value, i + 1);
    }
  }
}
