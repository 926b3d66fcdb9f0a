/** Physical memory as boot intake reads it (kernel/src/boot/validation.rs:645-653). */
module BootMemory {
  import opened Wrappers

  /** Readable physical memory at boot. */
  type Memory = map<nat, Byte>

  function ReadExact(memory: Memory, at: nat, n: nat): (r: Option<seq<Byte>>)
    ensures r.Some? ==> |r.value| == n
    decreases n
  {
    if n == 0 then Some([])
    else if at !in memory then None
    else
      match ReadExact(memory, at + 1, n - 1)
      case None => None
      case Some(rest) => Some([memory[at]] + rest)
  }
}
