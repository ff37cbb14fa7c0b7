/** The text stream of one log statement, over a buffer that never overflows. */
module LogStreams {
  import opened Limits
  import opened Sequences
  import opened FixedBuffers
  import opened Decimal
  import Spec = AsyncLogSpec
  import AsyncLog

  const NUMBER_SIZE_LIMIT := 32

  /** What one `<<` asks for, rendered. Numbers are formatted in place, texts are copied. */
  datatype Item = Text(text: string) | Number(text: string)

  predicate Accepts(capacity: nat, used: nat, item: Item) {
    match item
    case Text(t) => capacity - used > |t|
    case Number(_) => capacity - used >= NUMBER_SIZE_LIMIT
  }

  /** The items that made it into the buffer. */
  function Kept(capacity: nat, items: seq<Item>): seq<Item> {
    if items == [] then [] else
    var kept, last := Kept(capacity, items[..|items| - 1]), items[|items| - 1];
    if Accepts(capacity, |TextOf(kept)|, last) then kept + [last] else kept
  }

  function TextOf(items: seq<Item>): string {
    if items == [] then "" else TextOf(items[..|items| - 1]) + items[|items| - 1].text
  }

  predicate WellFormed(items: seq<Item>) {
    forall i :: 0 <= i < |items| && items[i].Number? ==> |items[i].text| < NUMBER_SIZE_LIMIT
  }

  lemma KeptNext(capacity: nat, items: seq<Item>, item: Item)
    ensures Kept(capacity, items + [item]) ==
            Kept(capacity, items) + if Accepts(capacity, |TextOf(Kept(capacity, items))|, item) then [item] else []
    ensures TextOf(items + [item]) == TextOf(items) + item.text
  {
    assert (items + [item])[..|items|] == items;
  }

  /**
    All or nothing: for every sequence of `<<`, what is kept is a subsequence of what
    was asked for, and there is always at least one free character left.
   */
  lemma {:induction false} ItemsAreAllOrNothing(capacity: nat, items: seq<Item>)
    requires capacity > 0 && WellFormed(items)
    ensures Subsequence(Kept(capacity, items), items)
    ensures |TextOf(Kept(capacity, items))| < capacity
  {
    if items != [] {
      var before, last := items[..|items| - 1], items[|items| - 1];
      ItemsAreAllOrNothing(capacity, before);
      assert items == before + [last];
      var kept := Kept(capacity, before);
      KeptNext(capacity, before, last);
      if Accepts(capacity, |TextOf(kept)|, last) {
        SubsequenceKeep(kept, before, last);
        KeptNext(capacity, kept, last);
      } else {
        SubsequenceSkip(kept, before, last);
      }
    }
  }

  /** Nothing is left out of what leaves room for one more number. */
  lemma {:induction false} AllKept(capacity: nat, items: seq<Item>)
    requires WellFormed(items) && |TextOf(items)| + 32 <= capacity
    ensures Kept(capacity, items) == items
  {
    if items != [] {
      var before, last := items[..|items| - 1], items[|items| - 1];
      assert TextOf(items) == TextOf(before) + last.text;
      AllKept(capacity, before);
      assert items == before + [last];
    }
  }

  class LogStream {
    const buffer: FixedBuffer
    ghost var said: seq<Item>

    ghost predicate Valid()
      reads this, buffer, buffer.data
    {
      && buffer.Valid() && buffer.data.Length == SMALL_BUFFER
      && WellFormed(said)
      && Flatten(buffer.items) == TextOf(Kept(SMALL_BUFFER, said))
    }

    constructor ()
      ensures Valid() && fresh(buffer) && fresh(buffer.data) && said == [] && Content() == ""
    {
      buffer := new FixedBuffer(SMALL_BUFFER);
      said := [];
    }

    /** What is in the buffer. */
    ghost function Content(): string
      reads this, buffer, buffer.data
      requires Valid()
    {
      buffer.data[..buffer.cur]
    }

    /** The free space decides, and it never runs out. */
    lemma Room()
      requires Valid()
      ensures buffer.cur == |TextOf(Kept(SMALL_BUFFER, said))| && Content() == TextOf(Kept(SMALL_BUFFER, said))
      ensures 0 < buffer.Avail()
    {
      ItemsAreAllOrNothing(SMALL_BUFFER, said);
    }

    /** operator<< for booleans, characters and strings, and append(). */
    method PutText(text: string)
      requires Valid() && |text| <= INT_MAX
      modifies this, buffer, buffer.data
      ensures Valid() && said == old(said) + [Text(text)]
      ensures Content() == if |old(Content())| + |text| < 4000 then old(Content()) + text else old(Content())
    {
      hide Kept, TextOf, Flatten;
      Room();
      KeptNext(SMALL_BUFFER, said, Text(text));
      KeptNext(SMALL_BUFFER, Kept(SMALL_BUFFER, said), Text(text));
      FlattenSnoc(buffer.items, text);
      assert Kept(SMALL_BUFFER, said) + [] == Kept(SMALL_BUFFER, said);
      buffer.Append(text);
      said := said + [Text(text)];
    }

    /** A null pointer is written as "(null)". */
    method PutCString(v: Option<string>)
      requires Valid() && (v.Some? ==> |v.value| <= INT_MAX)
      modifies this, buffer, buffer.data
      ensures Valid() && said == old(said) + [Text(if v.Some? then v.value else "(null)")]
      ensures var text := if v.Some? then v.value else "(null)";
              Content() == if |old(Content())| + |text| < 4000 then old(Content()) + text else old(Content())
    {
      if v.Some? {
        PutText(v.value);
      } else {
        PutText("(null)");
      }
    }

    method PutBool(v: bool)
      requires Valid()
      modifies this, buffer, buffer.data
      ensures Valid() && said == old(said) + [Text(if v then "1" else "0")]
      ensures Content() == if |old(Content())| < 3999 then old(Content()) + (if v then "1" else "0") else old(Content())
    {
      PutText(if v then "1" else "0");
    }

    /** format_integer, for every built-in integer type. */
    method PutInteger(v: int)
      requires Valid() && INT64_MIN <= v <= UINT64_MAX
      modifies this, buffer, buffer.data
      ensures Valid() && said == old(said) + [Number(Render(v))]
      ensures Content() == if |old(Content())| + 32 <= 4000 then old(Content()) + Render(v) else old(Content())
    {
      assert |Content()| == buffer.cur;
      SixtyFourBitLength(v);
      if buffer.Avail() >= NUMBER_SIZE_LIMIT {
        ghost var was := buffer.data[..];
        var len := Convert(buffer.data, buffer.cur, v);
        Formatted(was, buffer.cur, Render(v), "\0");
        Take(len, Render(v));
      } else {
        Refuse(Render(v));
      }
    }

    /** snprintf with a %.12g format: any text that fits its own size limit. */
    method PutFloat(text: string)
      requires Valid() && |text| < NUMBER_SIZE_LIMIT
      modifies this, buffer, buffer.data
      ensures Valid() && said == old(said) + [Number(text)]
      ensures Content() == if |old(Content())| + 32 <= 4000 then old(Content()) + text else old(Content())
    {
      assert |Content()| == buffer.cur;
      if buffer.Avail() >= NUMBER_SIZE_LIMIT {
        ghost var was := buffer.data[..];
        var start := buffer.cur;
        forall i | 0 <= i < |text| {
          buffer.data[start + i] := text[i];
        }
        buffer.data[start + |text|] := '\0';
        assert buffer.data[..] == Overwrite(was, start, text + "\0");
        Formatted(was, start, text, "\0");
        Take(|text|, text);
      } else {
        Refuse(text);
      }
    }

    /** buffer_.add(len), the characters being there already. */
    method Take(len: nat, ghost text: string)
      requires Valid() && buffer.Avail() >= NUMBER_SIZE_LIMIT > len == |text|
      requires buffer.data[buffer.cur..buffer.cur + len] == text
      modifies this`said, buffer
      ensures Valid() && said == old(said) + [Number(text)]
      ensures Content() == buffer.data[..old(buffer.cur)] + text
    {
      hide Kept, TextOf, Flatten;
      Room();
      KeptNext(SMALL_BUFFER, said, Number(text));
      KeptNext(SMALL_BUFFER, Kept(SMALL_BUFFER, said), Number(text));
      FlattenSnoc(buffer.items, text);
      buffer.Add(len);
      said := said + [Number(text)];
    }

    ghost method Refuse(text: string)
      requires Valid() && buffer.Avail() < NUMBER_SIZE_LIMIT && |text| < NUMBER_SIZE_LIMIT
      modifies this`said
      ensures Valid() && said == old(said) + [Number(text)]
    {
      Room();
      KeptNext(SMALL_BUFFER, said, Number(text));
      said := said + [Number(text)];
    }

    method Read() returns (text: string)
      requires Valid()
      ensures text == Content() == TextOf(Kept(SMALL_BUFFER, said)) && |text| < SMALL_BUFFER
      ensures |TextOf(said)| + 32 <= 4000 ==> text == TextOf(said)
    {
      Room();
      if |TextOf(said)| + 32 <= 4000 {
        AllKept(SMALL_BUFFER, said);
      }
      text := buffer.data[..buffer.cur];
    }

    method ResetBuffer()
      requires Valid()
      modifies this, buffer
      ensures Valid() && said == [] && Content() == ""
    {
      buffer.Reset();
      said := [];
    }
  }

  lemma Formatted(was: string, at: nat, text: string, rest: string)
    requires at + |text| + |rest| <= |was|
    ensures var s := Overwrite(was, at, text + rest);
            s[..at] == was[..at] && s[at..at + |text|] == text
  {
  }

  /** One log statement: the stream lives as long as the statement. */
  class Logger {
    const file: string
    const line: nat
    const stream: LogStream

    constructor (file: string, line: nat, time: string)
      requires |time| < 26 && |file| <= INT_MAX && line <= INT_MAX
      ensures stream.Valid() && fresh(stream) && fresh(stream.buffer) && fresh(stream.buffer.data)
      ensures stream.said == [Text(time)] && stream.Content() == time && this.file == file && this.line == line
    {
      this.file, this.line := file, line;
      stream := new LogStream();
      new;
      stream.PutCString(Some(time));
    }

    /** The source position ends every statement. */
    method Complete() returns (message: string)
      requires stream.Valid() && |file| <= INT_MAX && line <= INT_MAX
      modifies stream, stream.buffer, stream.buffer.data
      ensures stream.Valid()
      ensures stream.said == old(stream.said) + Position(file, line)
      ensures message == TextOf(Kept(SMALL_BUFFER, stream.said)) && |message| < SMALL_BUFFER
      ensures var whole := TextOf(old(stream.said)) + " -- " + file + ":" + Render(line) + "\n";
              |whole| + 32 <= 4000 ==> message == whole
    {
      hide LogStream.Valid, LogStream.Content, TextOf, Kept, Render;
      WholeText(stream.said, file, line);
      stream.PutCString(Some(" -- "));
      stream.PutCString(Some(file));
      stream.PutCString(Some(":"));
      stream.PutInteger(line);
      stream.PutText("\n");
      message := stream.Read();
    }

    /**
      The destructor: the whole statement goes to the logger as one message. It is
      shorter than a large buffer, so the logger always retains it.
     */
    method Finish(log: AsyncLog.AsyncLogging) returns (message: string)
      requires stream.Valid() && |file| <= INT_MAX && line <= INT_MAX
      requires log.Valid() && log.capacity == LARGE_BUFFER
      requires stream.buffer !in log.book.content && stream.buffer.data !in log.owner
      modifies stream, stream.buffer, stream.buffer.data, log, log.book.content.Keys, log.owner.Keys
      ensures log.Valid() && log.abs == Spec.AppendStep(LARGE_BUFFER, old(log.abs), message)
      ensures message == TextOf(Kept(SMALL_BUFFER, old(stream.said) + Position(file, line)))
      ensures var whole := TextOf(old(stream.said)) + " -- " + file + ":" + Render(line) + "\n";
              |whole| + 32 <= 4000 ==> message == whole
      ensures log.abs.appended == old(log.abs.appended) + [message]
      ensures Spec.Retained(LARGE_BUFFER, [message]) == [message]
    {
      hide AsyncLog.AsyncLogging.Valid, LogStream.Valid, LogStream.Content, TextOf, Kept, Render, Spec.AppendStep;
      message := Complete();
      ShortIsRetained(message);
      Spec.AppendFrame(LARGE_BUFFER, log.abs, message);
      log.Append(message);
    }
  }

  function Position(file: string, line: nat): seq<Item> {
    [Text(" -- "), Text(file), Text(":"), Number(Render(line)), Text("\n")]
  }

  /** A statement and its source position, one after the other. */
  lemma WholeText(said: seq<Item>, file: string, line: nat)
    ensures TextOf(said + Position(file, line)) == TextOf(said) + " -- " + file + ":" + Render(line) + "\n"
  {
    hide Render, Kept;
    var a, b := said + [Text(" -- ")], said + [Text(" -- "), Text(file)];
    var c, d := b + [Text(":")], b + [Text(":"), Number(Render(line))];
    KeptNext(0, said, Text(" -- "));
    KeptNext(0, a, Text(file));
    assert a + [Text(file)] == b;
    KeptNext(0, b, Text(":"));
    KeptNext(0, c, Number(Render(line)));
    assert c + [Number(Render(line))] == d;
    KeptNext(0, d, Text("\n"));
    assert d + [Text("\n")] == said + Position(file, line);
  }

  lemma ShortIsRetained(message: string)
    requires |message| < SMALL_BUFFER
    ensures Spec.Retained(LARGE_BUFFER, [message]) == [message] && LARGE_BUFFER == 1000 * SMALL_BUFFER == 4000000
  {
    assert [message][..0] == [];
  }
}
