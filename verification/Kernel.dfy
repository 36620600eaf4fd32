/** What the kernel modules share. */
module Kernel {

  datatype Option<T> = None | Some(value: T)

  /** s[i] = x */
  function SetAt(s: seq<nat>, i: nat, x: nat): (r: seq<nat>)
    requires i < |s|
    ensures |r| == |s| && forall j :: 0 <= j < |s| ==> r[j] == if j == i then x else s[j]
  {
    s[i := x]
  }

  /** enum procstate of kernel/proc.h */
  datatype ProcState = UNUSED | USED | SLEEPING | RUNNABLE | RUNNING | ZOMBIE
}
