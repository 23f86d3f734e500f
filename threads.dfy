/** The thread-count policy `main` applies to the `-threads` flag. */
module Threads {

  /**
   * `main` overwrites the requested count: below 1 it becomes 1, above twice
   * the processor count it becomes exactly that ceiling and a notice is
   * logged (`limited`).
   */
  method ClampThreads(requested: int, cpu: int) returns (threads: int, limited: bool)
    requires cpu >= 1
    ensures 1 <= threads <= 2 * cpu
    ensures 1 <= requested <= 2 * cpu ==> threads == requested
    ensures requested < 1 ==> threads == 1
    ensures requested > 2 * cpu ==> threads == 2 * cpu
    ensures limited <==> requested > 2 * cpu
  {
    threads := requested;
    limited := false;
    if threads < 1 {
      threads := 1;
    } else if threads > cpu * 2 {
      threads := cpu * 2;
      limited := true;
    }
  }
}
