/** The kernel's compile-time limits. */
module Config {
  const MAX_PRIORITIES: nat := 31
  const MAX_WAIT_NODES: nat := 8
  const INBOX_CAP: nat := 64
}
