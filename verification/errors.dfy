/** What can leave an operator call: a value, an exception, or the end of the
    process. Exceptions are the C++ ones the header's `try`/`catch` blocks
    distinguish; `Fatal` is `LOG(FATAL)`, which never returns. */
module Errors {

  /** Concatenation of message fragments, first to last. */
  function Concat(parts: seq<string>): string
  {
    if |parts| == 0 then "" else Concat(parts[..|parts| - 1]) + parts[|parts| - 1]
  }

  datatype Exception =
    | /** caffe2's `EnforceNotMet`: a stack of message fragments that
          `AppendMessage` pushes onto; the only exception the header catches. */
      EnforceNotMet(messages: seq<string>)
    | /** `std::out_of_range`, thrown by `std::vector::at`. */
      OutOfRange
    | /** Any other exception a kernel lets escape. */
      Foreign(what: string)
  {
    /** `EnforceNotMet::AppendMessage`: one more fragment at the end; other
        exception kinds have no such member and pass through. */
    function Append(s: string): (e: Exception)
      ensures EnforceNotMet? <==> e.EnforceNotMet?
      ensures EnforceNotMet? ==> e.Message() == Message() + s
      ensures EnforceNotMet? ==> |e.messages| == |messages| + 1 && e.messages[..|messages|] == messages
      ensures !EnforceNotMet? ==> e == this
    {
      if EnforceNotMet? then
        var e := EnforceNotMet(messages + [s]);
        assert e.messages[..|e.messages| - 1] == messages;
        e
      else this
    }

    /** The text `EnforceNotMet::msg()` reports: the fragments joined. */
    function Message(): string
      requires EnforceNotMet?
    {
      Concat(messages)
    }
  }

  /** `CAFFE_THROW(msg)`: a fresh enforce failure carrying one fragment. The
      "[enforce fail at file:line]" prefix the logging library adds is left out. */
  function Throw(msg: string): (e: Exception)
    ensures e.EnforceNotMet? && e.Message() == msg
  {
    assert [msg][..0] == [];
    assert Concat([msg]) == Concat([]) + msg;
    assert "" + msg == msg;
    EnforceNotMet([msg])
  }

  datatype Outcome<+T> =
    | Returned(value: T)
    | Threw(error: Exception)
    | /** The process ended through `LOG(FATAL)`; `log` is the logged line. */
      Fatal(log: string)
}
