/** Newline-terminated text: how a reader splits the bytes of a sink's output. */
module Lines {

  newtype Byte = x: int | 0 <= x < 256

  const NEWLINE: Byte := 10

  /** Complete lines, and the bytes after the last newline. */
  datatype Text = Text(lines: seq<seq<Byte>>, tail: seq<Byte>)

  function Feed(t: Text, b: Byte): Text {
    if b == NEWLINE then Text(t.lines + [t.tail], []) else Text(t.lines, t.tail + [b])
  }

  /** What a reader that has seen `t` sees after `bytes` more. */
  function FeedAll(t: Text, bytes: seq<Byte>): Text {
    if bytes == [] then t else Feed(FeedAll(t, bytes[..|bytes| - 1]), bytes[|bytes| - 1])
  }

  function Parse(bytes: seq<Byte>): Text { FeedAll(Text([], []), bytes) }

  predicate IsRecord(b: seq<Byte>) { NEWLINE !in b }

  lemma {:induction false} FeedAppend(t: Text, a: seq<Byte>, b: seq<Byte>)
    ensures FeedAll(t, a + b) == FeedAll(FeedAll(t, a), b)
  {
    if b == [] {
      assert a + b == a;
    } else {
      assert (a + b)[..|a + b| - 1] == a + b[..|b| - 1];
      FeedAppend(t, a, b[..|b| - 1]);
    }
  }

  lemma {:induction false} FeedRecord(t: Text, b: seq<Byte>)
    requires IsRecord(b)
    ensures FeedAll(t, b) == Text(t.lines, t.tail + b)
  {
    if b != [] {
      FeedRecord(t, b[..|b| - 1]);
      assert b[|b| - 1] in b;
    }
  }

  lemma FeedNewline(t: Text)
    ensures FeedAll(t, [NEWLINE]) == Text(t.lines + [t.tail], [])
  {
    assert [NEWLINE][..0] == [];
  }

  lemma FeedLine(t: Text, line: seq<Byte>)
    requires IsRecord(line)
    ensures FeedAll(t, line + [NEWLINE]) == Text(t.lines + [t.tail + line], [])
  {
    FeedAppend(t, line, [NEWLINE]);
    FeedRecord(t, line);
    FeedNewline(FeedAll(t, line));
  }

  /** Complete lines never change as the output grows. */
  lemma {:induction false} LinesOnlyGrow(t: Text, bytes: seq<Byte>)
    ensures t.lines <= FeedAll(t, bytes).lines
  {
    if bytes != [] {
      LinesOnlyGrow(t, bytes[..|bytes| - 1]);
    }
  }

  /** The bytes a text stands for. */
  function Render(t: Text): seq<Byte>
    decreases |t.lines|
  {
    if t.lines == [] then t.tail
    else t.lines[0] + [NEWLINE] + Render(Text(t.lines[1..], t.tail))
  }

  lemma {:induction false} RenderFeed(t: Text, b: Byte)
    ensures Render(Feed(t, b)) == Render(t) + [b]
    decreases |t.lines|
  {
    if t.lines != [] {
      RenderFeed(Text(t.lines[1..], t.tail), b);
      assert Feed(t, b).lines[0] == t.lines[0];
      assert b == NEWLINE ==> (t.lines + [t.tail])[1..] == t.lines[1..] + [t.tail];
    } else if b == NEWLINE {
      assert [t.tail][1..] == [];
    }
  }

  /** Reading loses nothing: the lines and the tail are all the bytes. */
  lemma {:induction false} RenderInvertsParse(bytes: seq<Byte>)
    ensures Render(Parse(bytes)) == bytes
  {
    if bytes != [] {
      RenderInvertsParse(bytes[..|bytes| - 1]);
      RenderFeed(Parse(bytes[..|bytes| - 1]), bytes[|bytes| - 1]);
    }
  }

  /** The torn-on-open rule looks at the last byte only: it answers whether the
      text has an unterminated tail. */
  predicate EndsWithoutNewline(bytes: seq<Byte>) {
    bytes != [] && bytes[|bytes| - 1] != NEWLINE
  }

  lemma {:induction false} TailIffEndsWithoutNewline(bytes: seq<Byte>)
    ensures EndsWithoutNewline(bytes) <==> Parse(bytes).tail != []
  {
  }
}
