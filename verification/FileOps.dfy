/** An attempt at a series of file operations: the disk now, the disks it has passed through, and whether it is still
    running.  A crash leaves one of those disks, and the next attempt starts from it. */
module FileOps {

  datatype Progress<D> = Progress(disk: D, trace: seq<D>, ok: bool)

  /** One file operation, unless the attempt has already failed. */
  function Write<D>(p: Progress<D>, d: D): Progress<D> {
    if p.ok then Progress(d, p.trace + [d], true) else p
  }

  function Ensure<D>(p: Progress<D>, condition: bool): Progress<D> {
    p.(ok := p.ok && condition)
  }

  /** What an attempt cut short after some operations leaves. */
  function Cut<D>(p: Progress<D>, start: D, cut: nat): D {
    if cut == 0 then start else if cut <= |p.trace| then p.trace[cut - 1] else p.disk
  }
}
