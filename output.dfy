/**
 * The client connection `fd` that the service writes its report to with
 * `write_string` and closes at the end.
 */
module Output {

  class Sink {
    /** Every string written so far, in order. */
    var lines: seq<string>
    var closed: bool

    constructor ()
      ensures lines == [] && !closed
    {
      lines := [];
      closed := false;
    }

    /** `write_string(fd, s)` */
    method Write(s: string)
      requires !closed
      modifies this
      ensures lines == old(lines) + [s] && !closed
    {
      lines := lines + [s];
    }

    /** `adb_close(fd)` */
    method Close()
      modifies this
      ensures closed && lines == old(lines)
    {
      closed := true;
    }
  }
}
