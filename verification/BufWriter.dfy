/** A buffered writer over an adversarial one: the `bufio.Writer` operations the
    sinks use, in place on a fixed-size buffer. */
module BufWriter {
  import opened Lines

  /** What the underlying writer does with one call: take everything, or take at
      most so many bytes and return an error. */
  datatype Response = Accept | Refuse(atMost: nat)

  function Taken(r: Response, len: nat): (n: nat)
    ensures n <= len && (r.Accept? ==> n == len)
  {
    if r.Refuse? && r.atMost < len then r.atMost else len
  }

  /** The underlying writer. `script` holds its future responses, so a statement
      about all scripts is a statement about all adversaries; `calls` holds what
      each Write call offered it, and `refused` how many it returned an error to. A
      short write comes with an error, as io.Writer demands. */
  class Output {
    var bytes: seq<Byte>
    var script: seq<Response>
    var closed: bool
    var calls: seq<seq<Byte>>
    var refused: nat

    constructor (bytes: seq<Byte>, script: seq<Response>)
      ensures this.bytes == bytes && this.script == script && !closed && calls == [] && refused == 0
    {
      this.bytes, this.script, closed, calls, refused := bytes, script, false, [], 0;
    }

    /** Open, and about to accept whatever it is offered. */
    ghost predicate Willing()
      reads this
    {
      !closed && forall i :: 0 <= i < |script| ==> script[i].Accept?
    }

    function NextResponse(): Response
      reads this
    {
      if closed then Refuse(0) else if script == [] then Accept else script[0]
    }

    method Write(p: seq<Byte>) returns (n: nat, ok: bool)
      modifies this`bytes, this`script, this`calls, this`refused
      ensures calls == old(calls) + [p] && refused == old(refused) + if ok then 0 else 1
      ensures old(Willing()) ==> Willing() && ok
      ensures n == Taken(old(NextResponse()), |p|) && ok == old(NextResponse()).Accept?
      ensures bytes == old(bytes) + p[..n]
    {
      var r := NextResponse();
      n, ok := Taken(r, |p|), r.Accept?;
      bytes, calls := bytes + p[..n], calls + [p];
      refused := refused + if ok then 0 else 1;
      if script != [] {
        script := script[1..];
      }
    }

    method Close()
      modifies this`closed
      ensures closed
    {
      closed := true;
    }
  }

  lemma PrefixGrows(p: seq<Byte>, i: nat, k: nat)
    requires i + k <= |p|
    ensures p[..i + k] == p[..i] + p[i..][..k]
  {
  }

  class Writer {
    const buf: array<Byte>
    var n: nat
    var failed: bool
    const out: Output

    ghost predicate Valid()
      reads this
    {
      0 < buf.Length && n <= buf.Length
    }

    /** Empty and with no latched error. */
    predicate Clean()
      reads this
    {
      n == 0 && !failed
    }

    function Available(): int
      reads this
    {
      buf.Length - n
    }

    /** The bytes still in the buffer. */
    ghost function Contents(): seq<Byte>
      requires Valid()
      reads this, buf
    {
      buf[..n]
    }

    /** Everything handed to the writer: delivered, then buffered. */
    ghost function Handed(): seq<Byte>
      requires Valid()
      reads this, buf, out
    {
      out.bytes + Contents()
    }

    constructor (out: Output, size: nat)
      requires size > 0
      ensures Valid() && Clean() && this.out == out && buf.Length == size && fresh(buf)
    {
      this.out := out;
      buf := new Byte[size];
      n, failed := 0, false;
    }

    /** Deliver the buffer. On an error the unsent tail stays, at the front, and
        the error is latched. */
    method Flush() returns (ok: bool)
      requires Valid()
      modifies this`n, this`failed, buf, out`bytes, out`script, out`calls, out`refused
      ensures Valid() && Handed() == old(Handed()) && old(out.bytes) <= out.bytes
      ensures ok == !failed && (ok ==> n == 0)
      ensures ok <==> !old(failed) && out.refused == old(out.refused)
      ensures old(out.refused) <= out.refused && (old(out.Willing()) ==> out.Willing() && out.refused == old(out.refused))
      ensures out.calls == old(out.calls) + if old(failed) || old(n) == 0 then [] else [old(Contents())]
      ensures out.closed ==> out.bytes == old(out.bytes)
      ensures old(failed) ==> failed && out.bytes == old(out.bytes) && n == old(n)
    {
      if failed {
        return false;
      }
      if n == 0 {
        return true;
      }
      var sent, accepted := out.Write(buf[..n]);
      if !accepted {
        ShiftLeft(sent);
        failed := true;
        return false;
      }
      n := 0;
      return true;
    }

    /** Drop the first `sent` buffered bytes by copying the rest down. */
    method ShiftLeft(sent: nat)
      requires Valid() && sent <= n
      modifies this`n, buf
      ensures Valid() && Contents() == old(Contents())[sent..]
    {
      var rest := n - sent;
      for i := 0 to rest
        invariant n == old(n)
        invariant forall k :: 0 <= k < i ==> buf[k] == old(buf[k + sent])
        invariant forall k :: i <= k < buf.Length ==> buf[k] == old(buf[k])
      {
        buf[i] := buf[i + sent];
      }
      n := rest;
    }

    /** Copy as much of `p` as fits. */
    method Copy(p: seq<Byte>) returns (copied: nat)
      requires Valid()
      modifies this`n, buf
      ensures Valid() && copied == if |p| <= old(Available()) then |p| else old(Available())
      ensures Contents() == old(Contents()) + p[..copied] && n == old(n) + copied
    {
      copied := if |p| <= Available() then |p| else Available();
      for i := 0 to copied
        invariant n == old(n)
        invariant forall k :: 0 <= k < i ==> buf[n + k] == p[k]
        invariant forall k :: 0 <= k < n ==> buf[k] == old(buf[k])
      {
        buf[n + i] := p[i];
      }
      n := n + copied;
    }

    method WriteByte(b: Byte) returns (ok: bool)
      requires Valid()
      modifies this`n, this`failed, buf, out`bytes, out`script, out`calls, out`refused
      ensures Valid() && Handed() == old(Handed()) + (if ok then [b] else []) && old(out.bytes) <= out.bytes
      ensures ok == !failed && (ok <==> !old(failed) && out.refused == old(out.refused))
      ensures old(out.refused) <= out.refused && (old(out.Willing()) ==> out.Willing() && out.refused == old(out.refused))
      ensures out.closed ==> out.bytes == old(out.bytes)
      ensures old(failed) ==> failed && out.bytes == old(out.bytes) && n == old(n)
      ensures !old(failed) && old(Available()) > 0 ==> ok && out.bytes == old(out.bytes) && n == old(n) + 1
      ensures old(failed) || old(Available()) > 0 ==> out.calls == old(out.calls)
    {
      if failed {
        return false;
      }
      if Available() <= 0 {
        ok := Flush();
        if !ok {
          return;
        }
      }
      var copied := Copy([b]);
      return true;
    }

    /** One round of `Write` for bytes that do not fit: pass them straight
        through an empty buffer, or fill the buffer and flush it. */
    method Round(rest: seq<Byte>) returns (k: nat)
      requires Valid() && !failed && |rest| > Available()
      modifies this`n, this`failed, buf, out`bytes, out`script, out`calls, out`refused
      ensures Valid() && k <= |rest| && Handed() == old(Handed()) + rest[..k] && old(out.bytes) <= out.bytes
      ensures out.closed ==> out.bytes == old(out.bytes)
      ensures failed || k == |rest| || (n == 0 && (k > 0 || old(n) > 0))
      ensures old(out.refused) <= out.refused && (failed <==> out.refused > old(out.refused))
      ensures old(out.Willing()) ==> out.Willing() && out.refused == old(out.refused)
      ensures old(n) == 0 ==> n == 0 && out.calls == old(out.calls) + [rest] && (failed || k == |rest|)
    {
      if n == 0 {
        var sent, accepted := out.Write(rest);
        failed := !accepted;
        k := sent;
      } else {
        ghost var handed := Handed();
        k := Copy(rest);
        assert Handed() == handed + rest[..k];
        var flushed := Flush();
      }
    }

    /** The last, fitting part of a `Write`. */
    method CopyRest(p: seq<Byte>, written: nat)
      requires Valid() && written <= |p| && |p| - written <= Available()
      modifies this`n, buf
      ensures Valid() && n == old(n) + |p| - written
      ensures forall before :: old(Handed()) == before + p[..written] ==> Handed() == before + p
    {
      ghost var handed := Handed();
      var copied := Copy(p[written..]);
      assert Handed() == handed + p[written..];
      assert p == p[..written] + p[written..];
    }

    /** `Write`: rounds while the rest of `p` does not fit, then copy it. */
    method Write(p: seq<Byte>) returns (written: nat, ok: bool)
      requires Valid()
      modifies this`n, this`failed, buf, out`bytes, out`script, out`calls, out`refused
      ensures Valid() && written <= |p| && Handed() == old(Handed()) + p[..written] && old(out.bytes) <= out.bytes
      ensures ok == !failed && (ok ==> written == |p|) && (ok <==> !old(failed) && out.refused == old(out.refused))
      ensures old(out.refused) <= out.refused && (old(out.Willing()) ==> out.Willing() && out.refused == old(out.refused))
      ensures out.closed ==> out.bytes == old(out.bytes)
      ensures old(failed) ==> failed && out.bytes == old(out.bytes) && n == old(n) && written == 0
      ensures !old(failed) && |p| <= old(Available()) ==> ok && out.bytes == old(out.bytes) && n == old(n) + |p|
      ensures old(failed) || |p| <= old(Available()) ==> out.calls == old(out.calls)
      ensures !old(failed) && |p| > old(Available()) && old(n) == 0 ==> out.calls == old(out.calls) + [p] && n == 0
    {
      written := 0;
      while |p| - written > Available() && !failed
        invariant Valid() && written <= |p| && Handed() == old(Handed()) + p[..written] && old(out.bytes) <= out.bytes
        invariant out.closed ==> out.bytes == old(out.bytes)
        invariant old(out.refused) <= out.refused && (!failed <==> !old(failed) && out.refused == old(out.refused))
        invariant old(out.Willing()) ==> out.Willing() && out.refused == old(out.refused)
        invariant old(failed) || |p| <= old(Available()) ==> failed == old(failed) && out.bytes == old(out.bytes) && out.calls == old(out.calls) && n == old(n) && written == 0
        invariant old(n) == 0 && |p| > old(Available()) && !old(failed) ==>
          n == 0 && out.calls == old(out.calls) + (if written == 0 && !failed then [] else [p]) && (written == 0 || failed || written == |p|)
        decreases |p| - written, n, !failed
      {
        var rest := p[written..];
        var k := Round(rest);
        PrefixGrows(p, written, k);
        written := written + k;
      }
      if failed {
        return written, false;
      }
      CopyRest(p, written);
      return |p|, true;
    }

    /** Forget the buffer and the latched error. */
    method Reset()
      requires Valid()
      modifies this`n, this`failed
      ensures Valid() && Clean()
    {
      n, failed := 0, false;
    }
  }
}
