module Buffers {

  // The byte queue of src/net/Buffer.cpp.
  class Buffer {
    var data: string

    constructor ()
      ensures data == ""
    {
      data := "";
    }

    function ReadableBytes(): nat
      reads this
    {
      |data|
    }

    predicate Empty()
      reads this
    {
      data == ""
    }

    function Peek(): string
      reads this
    {
      data
    }

    method Append(bytes: string)
      modifies this
      ensures data == old(data) + bytes
    {
      data := data + bytes;
    }

    // Asking for more than there is takes everything.
    method Retrieve(length: nat)
      modifies this
      ensures length <= |old(data)| ==> old(data) == old(data)[..length] + data
      ensures length > |old(data)| ==> data == ""
    {
      var consumed := if length < |data| then length else |data|;
      data := data[consumed..];
    }

    method RetrieveAll()
      modifies this
      ensures data == ""
    {
      data := "";
    }
  }
}
