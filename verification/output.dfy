/** The `io.Writer` the envelope layer writes documents to, reduced to what
    `io.WriteString` does to it: the text written so far grows at its end. */
module Output {

  class Writer {
    var written: string

    constructor ()
      ensures written == ""
    {
      written := "";
    }

    /** `io.WriteString(out, s)` */
    method WriteString(s: string)
      modifies this
      ensures written == old(written) + s
    {
      written := written + s;
    }
  }
}
