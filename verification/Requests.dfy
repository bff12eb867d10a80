/** The IOStdReq, whose fields BeginIO, AbortIO and the unit task write to. */
module Requests {
  import opened Base
  import opened Commands
  import opened Pipeline
  import opened Chunking

  class IORequest {
    const id: nat
    const command: Command
    const payload: seq<byte>  // what a write's buffer holds
    var quick: bool
    var offset: u32
    var actual: u32
    var data: nat
    var length: u32
    var error: IoError
    var replies: nat

    constructor (id: nat, command: Command, quick: bool, payload: seq<byte>, offset: u32, actual: u32, data: nat, length: u32)
      ensures this.id == id && this.command == command && this.quick == quick && this.payload == payload
      ensures this.offset == offset && this.actual == actual && this.data == data && this.length == length
      ensures error == NoError && replies == 0
    {
      this.id, this.command, this.quick, this.payload := id, command, quick, payload;
      this.offset, this.actual, this.data, this.length := offset, actual, data, length;
      error, replies := NoError, 0;
    }

    /** The request as the fields now name it, `bytes` being the payload of that part. */
    function Current(sgOf: SgOf, bytes: seq<byte>): Request
      reads this
    {
      Request(id, command, offset, actual, length, data, sgOf(data, length), bytes)
    }

    /** Rewrite the fields for the chunk at `done` of the request whose own fields are given. */
    method Aim(offset: u32, actual: u32, data: nat, length: u32, done: nat, cap: nat, sgOf: SgOf) returns (c: Request)
      requires done < length == |payload|
      modifies this`offset, this`actual, this`data, this`length
      ensures c == Chunk(Request(id, command, offset, actual, length, data, sgOf(data, length), payload), done, cap, sgOf)
      ensures this.offset == c.offset && this.actual == c.actual && this.data == c.data && this.length == c.length
    {
      var chunk := if length - done > cap then cap else length - done;
      var at := (TWO32 * actual + offset + done) % TWO64;
      HalvesFit(at);
      this.offset, this.actual := at % TWO32, at / TWO32;
      this.data, this.length := data + done, chunk;
      c := Current(sgOf, payload[done..done + chunk]);
    }

    /** ReplyMsg. */
    method Reply()
      modifies this`replies
      ensures replies == old(replies) + 1
    {
      replies := replies + 1;
    }
  }

  lemma HalvesFit(at: u64)
    ensures at / TWO32 < TWO32
  {
  }

  lemma CurrentIs(io: IORequest, sgOf: SgOf, bytes: seq<byte>)
    ensures io.Current(sgOf, bytes)
      == Request(io.id, io.command, io.offset, io.actual, io.length, io.data, sgOf(io.data, io.length), bytes)
  {
  }
}
