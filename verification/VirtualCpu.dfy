/** Size of the stack at the start of a virtual processor; `guest_context` shares its first bytes. */
module VirtualCpu {
  const STACK_SIZE := 0x6000
}
