/** Splitting nmcli's escaped colon-separated fields. */
module EscapedFields {
  import opened Common

  const NO_FIELDS: seq<string> := []

  /** The first of the fields with a text in front of it. */
  function Prepend(text: string, fields: seq<string>): (r: seq<string>)
    requires fields != []
    ensures |r| == |fields|
  {
    [text + fields[0]] + fields[1..]
  }

  /** Cutting at the unescaped colons, at most the given number of times; a backslash makes the next character
      ordinary, and one at the very end disappears. */
  function Cut(value: string, cuts: int): (fields: seq<string>)
    ensures 1 <= |fields| <= (if cuts > 0 then cuts else 0) + 1
  {
    if value == "" then [""]
    else if value[0] == '\\' then
      if |value| == 1 then [""] else Prepend([value[1]], Cut(value[2..], cuts))
    else if value[0] == ':' && cuts > 0 then [""] + Cut(value[1..], cuts - 1)
    else Prepend([value[0]], Cut(value[1..], cuts))
  }

  function Blanks(n: int): (r: seq<string>)
    ensures |r| == if n > 0 then n else 0
    ensures forall k :: 0 <= k < |r| ==> r[k] == ""
  {
    seq(if n > 0 then n else 0, _ => "")
  }

  /** The cut fields, filled up with empty ones. */
  function Padded(value: string, n: int): (fields: seq<string>)
    ensures |fields| == if n >= 1 then n else 1
  {
    var cut := Cut(value, n - 1);
    cut + Blanks(n - |cut|)
  }

  /** What the source returns: the padded fields cut back to the expected number, where a negative number counts
      from the end. */
  function Fields(value: string, n: int): seq<string> {
    if n >= 1 then Padded(value, n)[..n] else []
  }

  /** The final slice never discards a field when at least one is expected; with none expected it discards the only
      one there is. */
  lemma SliceDiscardsNothing(value: string, n: int)
    ensures |Fields(value, n)| == if n >= 1 then n else 0
    ensures Fields(value, n) == Padded(value, n) <==> n >= 1
  {
  }

  function Escape(field: string): string {
    if field == "" then ""
    else EscapeChar(field[0]) + Escape(field[1..])
  }

  function EscapeChar(c: char): string {
    if c == ':' || c == '\\' then ['\\', c] else [c]
  }

  /** Escaped fields joined by colons. */
  function Print(fields: seq<string>): string
    requires fields != []
  {
    if |fields| == 1 then Escape(fields[0]) else Escape(fields[0]) + ":" + Print(fields[1..])
  }

  lemma PrependTwice(a: string, b: string, fields: seq<string>)
    requires fields != []
    ensures Prepend(a, Prepend(b, fields)) == Prepend(a + b, fields)
    ensures Prepend("", fields) == fields
  {
    assert a + (b + fields[0]) == (a + b) + fields[0];
    assert "" + fields[0] == fields[0];
  }

  /** One ordinary character, as it is or after a backslash. */
  lemma CutOrdinary(c: char, rest: string, cuts: int)
    ensures Cut(['\\', c] + rest, cuts) == Prepend([c], Cut(rest, cuts))
    ensures c != '\\' && (c == ':' ==> cuts <= 0) ==> Cut([c] + rest, cuts) == Prepend([c], Cut(rest, cuts))
  {
    assert (['\\', c] + rest)[2..] == rest;
    assert ([c] + rest)[1..] == rest;
  }

  lemma {:induction false} CutEscaped(field: string, tail: string, cuts: int)
    ensures Cut(Escape(field) + tail, cuts) == Prepend(field, Cut(tail, cuts))
  {
    if field == "" {
      assert Escape(field) + tail == tail;
      PrependTwice("", "", Cut(tail, cuts));
    } else {
      var c, rest := field[0], Escape(field[1..]) + tail;
      CutEscaped(field[1..], tail, cuts);
      EscapeUnfolds(field, tail);
      CutOrdinary(c, rest, cuts);
      PrependTwice([c], field[1..], Cut(tail, cuts));
    }
  }

  lemma EscapeUnfolds(field: string, tail: string)
    requires field != ""
    ensures Escape(field) + tail == EscapeChar(field[0]) + (Escape(field[1..]) + tail)
    ensures field == [field[0]] + field[1..]
  {
    Associates(EscapeChar(field[0]), Escape(field[1..]), tail);
    HeadAndTail(field);
  }

  /** An escaped field and a colon make one field of their own. */
  lemma CutAtColon(field: string, rest: string, cuts: int)
    requires cuts > 0
    ensures Cut(Escape(field) + (":" + rest), cuts) == [field] + Cut(rest, cuts - 1)
  {
    assert (":" + rest)[1..] == rest;
    CutEscaped(field, ":" + rest, cuts);
    PrependBlank(field, Cut(rest, cuts - 1));
  }

  lemma CutLast(field: string, cuts: int)
    ensures Cut(Escape(field), cuts) == [field]
  {
    CutEscaped(field, "", cuts);
    assert Escape(field) + "" == Escape(field);
    PrependBlank(field, []);
    assert [""] + [] == [""];
  }

  lemma {:induction false} CutInvertsPrint(fields: seq<string>, cuts: int)
    requires fields != [] && cuts >= |fields| - 1
    ensures Cut(Print(fields), cuts) == fields
  {
    if |fields| == 1 {
      CutLast(fields[0], cuts);
    } else {
      CutInvertsPrint(fields[1..], cuts - 1);
      CutAtColon(fields[0], Print(fields[1..]), cuts);
      assert Escape(fields[0]) + ":" + Print(fields[1..]) == Escape(fields[0]) + (":" + Print(fields[1..]));
    }
  }

  /** Splitting inverts the printer that escapes ':' and '\' and joins with ':', for any fields. */
  lemma FieldsRoundTrip(fields: seq<string>)
    requires fields != []
    ensures Fields(Print(fields), |fields|) == fields
  {
    var n := |fields|;
    CutInvertsPrint(fields, n - 1);
    assert Padded(Print(fields), n) == fields + Blanks(0);
    assert (fields + Blanks(0))[..n] == fields;
  }

  /** Too few fields are filled up with empty ones at the end. */
  lemma MissingFieldsFollowEmpty(fields: seq<string>, n: int)
    requires fields != [] && n >= |fields|
    ensures var result := Fields(Print(fields), n);
            |result| == n && result[..|fields|] == fields && forall k :: |fields| <= k < n ==> result[k] == ""
  {
    CutInvertsPrint(fields, n - 1);
  }

  /** The fields with plain colons between them. */
  function Joined(fields: seq<string>): string
    requires fields != []
  {
    if |fields| == 1 then fields[0] else fields[0] + ":" + Joined(fields[1..])
  }

  lemma ColonInside(field: string, rest: string)
    ensures Cut(Escape(field) + (":" + rest), 0) == Prepend(field + ":", Cut(rest, 0))
  {
    CutEscaped(field, ":" + rest, 0);
    CutOrdinary(':', rest, 0);
    assert [':'] + rest == ":" + rest;
    PrependTwice(field, ":", Cut(rest, 0));
  }

  lemma {:induction false} UncutIsJoined(fields: seq<string>)
    requires fields != []
    ensures Cut(Print(fields), 0) == [Joined(fields)]
  {
    if |fields| == 1 {
      CutLast(fields[0], 0);
    } else {
      UncutIsJoined(fields[1..]);
      ColonInside(fields[0], Print(fields[1..]));
      assert Escape(fields[0]) + ":" + Print(fields[1..]) == Escape(fields[0]) + (":" + Print(fields[1..]));
    }
  }

  lemma {:induction false} CutKeepsTheRest(fields: seq<string>, n: nat)
    requires 1 <= n < |fields|
    ensures Cut(Print(fields), n - 1) == fields[..n - 1] + [Joined(fields[n - 1..])]
  {
    if n == 1 {
      UncutIsJoined(fields);
    } else {
      CutKeepsTheRest(fields[1..], n - 1);
      CutAtColon(fields[0], Print(fields[1..]), n - 1);
      assert Escape(fields[0]) + ":" + Print(fields[1..]) == Escape(fields[0]) + (":" + Print(fields[1..]));
      FirstAndRest(fields, n);
    }
  }

  lemma FirstAndRest(fields: seq<string>, n: nat)
    requires 2 <= n < |fields|
    ensures [fields[0]] + (fields[1..][..n - 2] + [Joined(fields[1..][n - 2..])])
            == fields[..n - 1] + [Joined(fields[n - 1..])]
  {
    assert fields[1..][n - 2..] == fields[n - 1..];
    assert [fields[0]] + fields[1..][..n - 2] == fields[..n - 1];
    Associates([fields[0]], fields[1..][..n - 2], [Joined(fields[n - 1..])]);
  }

  /** Too many fields end up in the last one, with the colons between them. */
  lemma FieldsBeyondAreJoined(fields: seq<string>, n: nat)
    requires 1 <= n < |fields|
    ensures Fields(Print(fields), n) == fields[..n - 1] + [Joined(fields[n - 1..])]
  {
    CutKeepsTheRest(fields, n);
  }

  lemma {:induction false} PrintedWithBackslash(fields: seq<string>)
    requires fields != []
    ensures Cut(Print(fields) + "\\", |fields| - 1) == fields
  {
    if |fields| == 1 {
      CutEscaped(fields[0], "\\", 0);
      PrependBlank(fields[0], []);
      assert [""] + [] == [""];
    } else {
      PrintedWithBackslash(fields[1..]);
      CutAtColon(fields[0], Print(fields[1..]) + "\\", |fields| - 1);
      assert Print(fields) + "\\" == Escape(fields[0]) + (":" + (Print(fields[1..]) + "\\"));
    }
  }

  /** A backslash with nothing after it disappears. */
  lemma LoneBackslashVanishes(fields: seq<string>)
    requires fields != []
    ensures Fields(Print(fields) + "\\", |fields|) == fields
  {
    PrintedWithBackslash(fields);
  }

  /** So whatever text was split, printing its fields and splitting again gives the same fields. */
  lemma PrintedFieldsSplitTheSame(value: string, n: int)
    requires n >= 1
    ensures Fields(Print(Fields(value, n)), n) == Fields(value, n)
  {
    FieldsRoundTrip(Fields(value, n));
  }

  /** The text not yet read, with the backslash that is still in force. */
  function Unread(value: string, i: nat, escaping: bool): string
    requires i <= |value|
  {
    (if escaping then "\\" else "") + value[i..]
  }

  /** What the loop will have made of the whole text: the finished fields, then the unfinished one continued by
      what is still unread. */
  ghost function Outlook(fields: seq<string>, current: string, unread: string, expected: int): seq<string> {
    fields + Prepend(current, Cut(unread, expected - 1 - |fields|))
  }

  /** The next character is an ordinary one, escaped or not. */
  lemma ReadOrdinary(fields: seq<string>, current: string, c: char, rest: string, expected: int)
    ensures Outlook(fields, current, ['\\', c] + rest, expected) == Outlook(fields, current + [c], rest, expected)
    ensures c != '\\' && (c == ':' ==> expected - 1 <= |fields|) ==>
              Outlook(fields, current, [c] + rest, expected) == Outlook(fields, current + [c], rest, expected)
  {
    CutOrdinary(c, rest, expected - 1 - |fields|);
    PrependTwice(current, [c], Cut(rest, expected - 1 - |fields|));
  }

  /** The next character is a colon that ends a field. */
  lemma ReadColon(fields: seq<string>, current: string, rest: string, expected: int)
    requires |fields| < expected - 1
    ensures Outlook(fields, current, [':'] + rest, expected) == Outlook(fields + [current], "", rest, expected)
  {
    var cuts := expected - 1 - |fields|;
    assert ([':'] + rest)[1..] == rest;
    PrependTwice("", "", Cut(rest, cuts - 1));
    PrependBlank(current, Cut(rest, cuts - 1));
    assert (fields + [current]) + Cut(rest, cuts - 1) == fields + ([current] + Cut(rest, cuts - 1));
  }

  lemma PrependBlank(text: string, fields: seq<string>)
    ensures Prepend(text, [""] + fields) == [text] + fields
  {
    assert text + "" == text;
  }

  lemma UnreadStep(value: string, i: nat)
    requires i < |value|
    ensures Unread(value, i, true) == ['\\', value[i]] + Unread(value, i + 1, false)
    ensures Unread(value, i, false) == [value[i]] + Unread(value, i + 1, false)
    ensures value[i] == '\\' ==> Unread(value, i + 1, true) == [value[i]] + Unread(value, i + 1, false)
  {
    assert value[i..] == [value[i]] + value[i + 1..];
  }

  /** fields[:n], where a negative n counts from the end. */
  function Slice(fields: seq<string>, n: int): seq<string> {
    if 0 <= n <= |fields| then fields[..n]
    else if n > |fields| then fields
    else if -n <= |fields| then fields[..|fields| + n]
    else []
  }

  /** The loop over the characters. */
  method ReadFields(value: string, expectedFields: int) returns (fields: seq<string>)
    ensures fields == Cut(value, expectedFields - 1)
  {
    fields := [];
    var current, escaping := "", false;
    PrependTwice("", "", Cut(value, expectedFields - 1));
    assert Unread(value, 0, false) == value;
    for i := 0 to |value|
      invariant Outlook(fields, current, Unread(value, i, escaping), expectedFields) == Cut(value, expectedFields - 1)
    {
      ghost var rest := Unread(value, i + 1, false);
      UnreadStep(value, i);
      ReadOrdinary(fields, current, value[i], rest, expectedFields);
      if escaping {
        current := current + [value[i]];
        escaping := false;
      } else if value[i] == '\\' {
        escaping := true;
      } else if value[i] == ':' && |fields| < expectedFields - 1 {
        ReadColon(fields, current, rest, expectedFields);
        fields := fields + [current];
        current := "";
      } else {
        current := current + [value[i]];
      }
    }
    assert current + "" == current;
    fields := fields + [current];
  }

  /** _split_escaped_fields. */
  method SplitEscapedFields(value: string, expectedFields: int) returns (result: seq<string>)
    ensures result == Fields(value, expectedFields)
  {
    var fields := ReadFields(value, expectedFields);
    ghost var cut := Cut(value, expectedFields - 1);
    while |fields| < expectedFields
      invariant |cut| <= |fields| <= (if expectedFields > 1 then expectedFields else 1)
      invariant fields == cut + Blanks(|fields| - |cut|)
    {
      fields := fields + [""];
    }
    result := Slice(fields, expectedFields);
  }
}
