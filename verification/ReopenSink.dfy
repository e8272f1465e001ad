/**
 A log file that can be closed and reopened in place (internal/logging/reopen.go). Each method
 runs under the sink's lock, so each is one atomic step of the protocol in module Reload. What
 the operating system does (open, short write, failing close) is a parameter.
 */
module ReopenSink {
  import opened Wrappers

  /** An open file and what was written through it. */
  class LogFile {
    const path: string
    var open: bool
    var written: string

    constructor (p: string)
      ensures path == p && open && written == ""
    {
      path, open, written := p, true, "";
    }
  }

  datatype Status = Done | ErrClosed | ErrOpen | ErrClose | ErrWrite

  class Sink {
    var f: LogFile?
    const path: string

    /** An installed file is open. */
    ghost predicate Valid()
      reads this, f
    {
      f != null ==> f.open && f.path == path
    }

    constructor (file: LogFile)
      requires file.open
      ensures Valid() && f == file && path == file.path
    {
      f, path := file, file.path;
    }

    /** Writes land in the current file and nowhere else; the file may take only a part. */
    method Write(p: string, taken: nat) returns (n: nat, s: Status)
      requires Valid() && taken <= |p|
      modifies f
      ensures Valid()
      ensures old(f) == null ==> n == 0 && s == ErrClosed
      ensures old(f) != null ==> n == taken && (s == Done <==> taken == |p|) && s in {Done, ErrWrite}
      ensures f != null ==> f.written == old(f.written) + p[..n]
    {
      if f == null {
        return 0, ErrClosed;
      }
      f.written := f.written + p[..taken];
      n, s := taken, if taken == |p| then Done else ErrWrite;
    }

    /** Shuts the sink down for good, whatever closing the file reports; closing again does nothing. */
    method Close(closeFails: bool) returns (s: Status)
      requires Valid()
      modifies this, f
      ensures Valid() && f == null
      ensures s == if old(f) != null && closeFails then ErrClose else Done
      ensures old(f) != null ==> !old(f).open && old(f).written == old(f.written)
    {
      if f == null {
        return Done;
      }
      f.open := false;
      f := null;
      s := if closeFails then ErrClose else Done;
    }

    /**
     Swaps in a newly opened file and closes the old one; an error from that close is reported,
     but the swap stands. If the path cannot be opened the old file stays in use; a closed sink
     stays closed and opens nothing.
     */
    method Reopen(pathOpens: bool, closeFails: bool) returns (s: Status)
      requires Valid()
      modifies this, f
      ensures Valid()
      ensures s == if old(f) == null then ErrClosed else if !pathOpens then ErrOpen else if closeFails then ErrClose else Done
      ensures s == ErrClosed ==> f == null
      ensures s == ErrOpen ==> f == old(f) && f.written == old(f.written)
      ensures s in {Done, ErrClose} ==>
                && f != null && fresh(f) && f.written == ""
                && !old(f).open && old(f).written == old(f.written)
    {
      if f == null {
        return ErrClosed;
      }
      if !pathOpens {
        return ErrOpen;
      }
      var newF := new LogFile(path);
      var prev := f;
      f := newF;
      prev.open := false;
      s := if closeFails then ErrClose else Done;
    }
  }

  /** A new sink on a file it opens; an empty path or a failing open gives none. */
  method OpenReopenSink(path: string, pathOpens: bool) returns (r: Result<Sink>)
    ensures r.Ok? <==> path != "" && pathOpens
    ensures r.Ok? ==> fresh(r.value) && r.value.Valid() && r.value.path == path &&
                      r.value.f != null && fresh(r.value.f) && r.value.f.written == ""
  {
    if path == "" || !pathOpens {
      return Err;
    }
    var file := new LogFile(path);
    var sink := new Sink(file);
    r := Ok(sink);
  }
}
