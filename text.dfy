/** String operations the log store relies on: JavaScript's `Array.prototype.join`
    and `String.prototype.split` with a one-character separator, and the
    "drop empty segments" filter applied when a log file is read back. */
module Text {

  /** `s.split(d)`: the maximal delimiter-free segments of `s`, in order.
      As in JavaScript, splitting "" gives [""], and a trailing separator
      gives a trailing empty segment. */
  function Split(s: string, d: char): (r: seq<string>)
    ensures |r| >= 1
    ensures forall i :: 0 <= i < |r| ==> d !in r[i]
    decreases |s|
  {
    if |s| == 0 then [""]
    else if s[0] == d then [""] + Split(s[1..], d)
    else
      var rest := Split(s[1..], d);
      [[s[0]] + rest[0]] + rest[1..]
  }

  /** `fields.join(d)`: the fields with one separator between neighbours. */
  function Join(fields: seq<string>, d: char): (r: string)
    ensures |fields| > 0 ==> fields[0] <= r
  {
    if |fields| == 0 then ""
    else if |fields| == 1 then fields[0]
    else fields[0] + [d] + Join(fields[1..], d)
  }

  /** `segments.filter(entry => entry.length > 0)`. */
  function NonEmpty(segments: seq<string>): (r: seq<string>)
    ensures |r| <= |segments|
    ensures forall i :: 0 <= i < |r| ==> r[i] != ""
  {
    if |segments| == 0 then []
    else if segments[0] == "" then NonEmpty(segments[1..])
    else [segments[0]] + NonEmpty(segments[1..])
  }

  /** The filter adds nothing and keeps every non-empty segment. */
  lemma {:induction false} NonEmptyMembers(segments: seq<string>)
    ensures forall x :: x in NonEmpty(segments) ==> x in segments
    ensures forall x :: x in segments && x != "" ==> x in NonEmpty(segments)
    decreases |segments|
  {
    if |segments| > 0 {
      NonEmptyMembers(segments[1..]);
      assert segments == [segments[0]] + segments[1..];
    }
  }

  /** The lines a log file's content is read back as: split on '\n',
      empty segments (blank lines and the one after the final '\n') dropped. */
  function Lines(content: string): (r: seq<string>)
    ensures forall i :: 0 <= i < |r| ==> r[i] != "" && '\n' !in r[i]
  {
    var segments := Split(content, '\n');
    var r := NonEmpty(segments);
    NonEmptyMembers(segments);
    assert forall i :: 0 <= i < |r| ==> r[i] in segments;
    r
  }

  /** Content an appender has left at a line boundary. */
  predicate EndsLine(content: string)
  {
    content == "" || content[|content| - 1] == '\n'
  }

  lemma {:induction false} SplitWithoutDelimiter(s: string, d: char)
    requires d !in s
    ensures Split(s, d) == [s]
    decreases |s|
  {
    if |s| > 0 {
      SplitWithoutDelimiter(s[1..], d);
      assert [s[0]] + s[1..] == s;
    }
  }

  /** Splitting distributes over a separator occurrence. */
  lemma {:induction false} SplitAtDelimiter(a: string, b: string, d: char)
    ensures Split(a + [d] + b, d) == Split(a, d) + Split(b, d)
    decreases |a|
  {
    var s := a + [d] + b;
    if |a| == 0 {
      assert s == [d] + b;
      assert s[1..] == b;
    } else {
      assert s[0] == a[0];
      assert s[1..] == a[1..] + [d] + b;
      SplitAtDelimiter(a[1..], b, d);
      var front, back := Split(a[1..], d), Split(b, d);
      var rest := Split(s[1..], d);
      assert rest == front + back;
      if a[0] == d {
        assert Split(s, d) == [""] + rest;
        assert Split(a, d) == [""] + front;
        ConcatAssociative([""], front, back);
      } else {
        assert Split(s, d) == [[a[0]] + rest[0]] + rest[1..];
        assert Split(a, d) == [[a[0]] + front[0]] + front[1..];
        assert rest[0] == front[0];
        assert rest[1..] == front[1..] + back;
        ConcatAssociative([[a[0]] + front[0]], front[1..], back);
      }
    }
  }

  /** Join then split is the identity when no field contains the separator. */
  lemma {:induction false} SplitJoin(fields: seq<string>, d: char)
    requires |fields| > 0
    requires forall i :: 0 <= i < |fields| ==> d !in fields[i]
    ensures Split(Join(fields, d), d) == fields
    decreases |fields|
  {
    SplitWithoutDelimiter(fields[0], d);
    if |fields| > 1 {
      SplitJoin(fields[1..], d);
      SplitAtDelimiter(fields[0], Join(fields[1..], d), d);
      assert [fields[0]] + fields[1..] == fields;
    }
  }

  /** Split then join gives back any string. */
  lemma {:induction false} JoinSplit(s: string, d: char)
    ensures Join(Split(s, d), d) == s
    decreases |s|
  {
    if |s| > 0 {
      JoinSplit(s[1..], d);
      var rest := Split(s[1..], d);
      assert s == [s[0]] + s[1..];
      if s[0] == d {
        assert ([""] + rest)[1..] == rest;
      } else {
        var r := [[s[0]] + rest[0]] + rest[1..];
        assert r[1..] == rest[1..];
        if |rest| > 1 {
          assert Join(rest, d) == rest[0] + [d] + Join(rest[1..], d);
        }
      }
    }
  }

  /** A character that is in no field and is not the separator is not in the joined string. */
  lemma {:induction false} JoinAvoids(fields: seq<string>, d: char, c: char)
    requires c != d
    requires forall i :: 0 <= i < |fields| ==> c !in fields[i]
    ensures c !in Join(fields, d)
    decreases |fields|
  {
    if |fields| > 1 {
      JoinAvoids(fields[1..], d, c);
    }
  }

  lemma ConcatAssociative<T>(a: seq<T>, b: seq<T>, c: seq<T>)
    ensures (a + b) + c == a + (b + c)
  {
  }

  lemma {:induction false} NonEmptyConcat(a: seq<string>, b: seq<string>)
    ensures NonEmpty(a + b) == NonEmpty(a) + NonEmpty(b)
    decreases |a|
  {
    if |a| == 0 {
      assert a + b == b;
    } else {
      NonEmptyConcat(a[1..], b);
      assert (a + b)[1..] == a[1..] + b;
    }
  }

  /** Appending one non-empty, newline-free line and a '\n' to content at a line
      boundary adds exactly that line to what is read back. */
  lemma LinesOfAppend(content: string, line: string)
    requires EndsLine(content)
    requires line != "" && '\n' !in line
    ensures Lines(content + line + "\n") == Lines(content) + [line]
    ensures EndsLine(content + line + "\n")
  {
    SplitWithoutDelimiter(line, '\n');
    assert content + line + "\n" == (content + line) + ['\n'] + "";
    SplitAtDelimiter(content + line, "", '\n');
    if content == "" {
      assert content + line == line;
      NonEmptyConcat([line], [""]);
    } else {
      var front := content[..|content| - 1];
      assert content == front + ['\n'] + "";
      SplitAtDelimiter(front, "", '\n');
      assert content + line == front + ['\n'] + line;
      SplitAtDelimiter(front, line, '\n');
      NonEmptyConcat(Split(front, '\n'), [""]);
      NonEmptyConcat(Split(front, '\n') + [line], [""]);
      NonEmptyConcat(Split(front, '\n'), [line]);
    }
  }
}
