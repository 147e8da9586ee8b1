/** The line buffers of the console: one buffer as the code uses it, and what a call does to it. */
module Console {
  /** What one call puts out, and what stays in the buffer. */
  datatype Handled = Handled(out: string, pending: string)

  /** Buffer_output_handle_new on a buffer that holds `pending`. */
  function HandleNew(pending: string, capacity: nat, c: char): Handled {
    if c == '\n' then Handled(pending + ['\n'], "")
    else if |pending| == capacity then Handled(pending, [c])
    else Handled("", pending + [c])
  }

  class Buffer {
    const bytes: array<char>
    var count: nat

    ghost predicate Valid()
      reads this, bytes
    {
      count <= bytes.Length
    }

    ghost function Contents(): string
      reads this, bytes
      requires Valid()
    {
      bytes[..count]
    }

    /** Buffer_wrap: clears the backing memory. */
    constructor (memory: array<char>)
      modifies memory
      ensures Valid() && bytes == memory && Contents() == ""
      ensures forall i :: 0 <= i < memory.Length ==> memory[i] == '\0'
    {
      bytes := memory;
      count := 0;
      new;
      var i := 0;
      while i < memory.Length
        invariant count == 0 && bytes == memory
        invariant i <= memory.Length && forall k :: 0 <= k < i ==> memory[k] == '\0'
      {
        memory[i] := '\0';
        i := i + 1;
      }
    }

    /** Buffer_try_push. */
    method TryPush(c: char) returns (pushed: bool)
      requires Valid()
      modifies `count, bytes
      ensures Valid() && pushed == (|old(Contents())| < bytes.Length)
      ensures Contents() == if pushed then old(Contents()) + [c] else old(Contents())
    {
      if count == bytes.Length {
        return false;
      }
      bytes[count] := c;
      count := count + 1;
      pushed := true;
      assert bytes[..count] == old(bytes[..count]) + [c];
    }

    /** Buffer_output_flush: the characters that it sends to the console, in order; their memory is cleared. */
    method OutputFlush() returns (out: string)
      requires Valid()
      modifies `count, bytes
      ensures Valid() && out == old(Contents()) && Contents() == ""
      ensures forall k :: 0 <= k < bytes.Length ==> bytes[k] == if k < old(count) then '\0' else old(bytes[k])
    {
      out := "";
      for i := 0 to count
        invariant out == bytes[..i] && count == old(count) && bytes[..] == old(bytes[..])
      {
        out := out + [bytes[i]];
      }
      for i := 0 to count
        invariant count == old(count)
        invariant forall k :: 0 <= k < bytes.Length ==> bytes[k] == if k < i then '\0' else old(bytes[k])
      {
        bytes[i] := '\0';
      }
      count := 0;
    }

    /** Buffer_output_handle_new; the second push cannot fail. */
    method OutputHandleNew(c: char) returns (out: string)
      requires Valid() && bytes.Length > 0
      modifies `count, bytes
      ensures Valid() && Handled(out, Contents()) == HandleNew(old(Contents()), bytes.Length, c)
    {
      if c == '\n' {
        out := OutputFlush();
        out := out + ['\n'];
      } else {
        out := "";
        var pushed := TryPush(c);
        if !pushed {
          out := OutputFlush();
          pushed := TryPush(c);
          assert pushed;
        }
      }
    }
  }
}
