/**
  The log of sent mails stores the recipients of a mail joined into one string, and counting takes that string apart
  again: it splits at commas, strips every part and drops empty ones. So the count of a joined list is the sum of what
  its entries count, whatever they contain, and its length if they are plain addresses.
*/
module Recipients {
  import opened Positions

  /** One more character: a comma starts a new part, anything else belongs to the last one. */
  function Extend(parts: seq<string>, c: char): (longer: seq<string>)
    requires |parts| >= 1
    ensures |longer| >= 1
  {
    if c == ',' then parts + [""] else parts[..|parts| - 1] + [parts[|parts| - 1] + [c]]
  }

  /** value.split(",") */
  function Split(s: string): (parts: seq<string>)
    ensures |parts| >= 1
  {
    if s == [] then [""] else Extend(Split(s[..|s| - 1]), s[|s| - 1])
  }

  /** The characters strip() removes: white space, and the separators Unicode counts as such. */
  predicate IsSpace(c: char) {
    || '\t' <= c <= '\r' || '\U{1C}' <= c <= '\U{20}' || c == '\U{85}' || c == '\U{A0}' || c == '\U{1680}'
    || '\U{2000}' <= c <= '\U{200A}' || '\U{2028}' <= c <= '\U{2029}' || c == '\U{202F}' || c == '\U{205F}'
      || c == '\U{3000}'
  }

  /** part.strip() is not empty. */
  predicate NotBlank(s: string) {
    exists i :: 0 <= i < |s| && !IsSpace(s[i])
  }

  function CountNotBlank(parts: seq<string>): nat {
    if parts == [] then 0 else CountNotBlank(parts[..|parts| - 1]) + (if NotBlank(parts[|parts| - 1]) then 1 else 0)
  }

  function CountRecipients(value: Option<string>): nat {
    if value.None? || value.value == "" then 0 else CountNotBlank(Split(value.value))
  }

  /** ", ".join(addresses) */
  function Join(addresses: seq<string>): string {
    if addresses == [] then ""
    else if |addresses| == 1 then addresses[0]
    else Join(addresses[..|addresses| - 1]) + ", " + addresses[|addresses| - 1]
  }

  lemma {:induction false} SplitSnoc(s: string, c: char)
    ensures Split(s + [c]) == Extend(Split(s), c)
  {
    assert (s + [c])[..|s|] == s;
  }

  lemma {:induction false} ExtendConcat(a: seq<string>, b: seq<string>, c: char)
    requires |b| >= 1
    ensures Extend(a + b, c) == a + Extend(b, c)
  {
  }

  lemma {:induction false} SplitAtComma(s: string, t: string)
    ensures Split(s + "," + t) == Split(s) + Split(t)
  {
    if t == "" {
      assert s + "," + t == s + [','];
      SplitSnoc(s, ',');
    } else {
      var init, c := t[..|t| - 1], t[|t| - 1];
      assert s + "," + t == (s + "," + init) + [c];
      SplitAtComma(s, init);
      SplitSnoc(s + "," + init, c);
      ExtendConcat(Split(s), Split(init), c);
    }
  }

  /** A space in front of the first part. */
  function SpaceFirst(parts: seq<string>): (r: seq<string>)
    requires |parts| >= 1
    ensures |r| == |parts|
  {
    [" " + parts[0]] + parts[1..]
  }

  lemma {:induction false} SpaceFirstExtend(parts: seq<string>, c: char)
    requires |parts| >= 1
    ensures Extend(SpaceFirst(parts), c) == SpaceFirst(Extend(parts, c))
  {
    var left, right := Extend(SpaceFirst(parts), c), SpaceFirst(Extend(parts, c));
    if c != ',' {
      assert " " + parts[0] + [c] == " " + (parts[0] + [c]);
    }
    assert |left| == |right|;
    assert forall i :: 0 <= i < |left| ==> left[i] == right[i];
  }

  lemma {:induction false} SplitAfterSpaceStep(init: string, c: char)
    requires Split(" " + init) == SpaceFirst(Split(init))
    ensures Split((" " + init) + [c]) == SpaceFirst(Split(init + [c]))
  {
    SplitSnoc(" " + init, c);
    SplitSnoc(init, c);
    SpaceFirstExtend(Split(init), c);
  }

  lemma {:induction false} SplitAfterSpace(t: string)
    ensures Split(" " + t) == SpaceFirst(Split(t))
  {
    if t == "" {
      assert " " + t == [] + [' '];
      SplitSnoc([], ' ');
      assert Split("") == [""] && [""][1..] == [];
    } else {
      var init, c := t[..|t| - 1], t[|t| - 1];
      SplitAfterSpace(init);
      SplitAfterSpaceStep(init, c);
      assert init + [c] == t;
      assert " " + t == (" " + init) + [c];
    }
  }

  lemma {:induction false} CountConcat(a: seq<string>, b: seq<string>)
    ensures CountNotBlank(a + b) == CountNotBlank(a) + CountNotBlank(b)
  {
    if b == [] {
      assert a + b == a;
    } else {
      assert (a + b)[..|a + b| - 1] == a + b[..|b| - 1];
      CountConcat(a, b[..|b| - 1]);
    }
  }

  lemma {:induction false} SpaceIsBlank(s: string)
    ensures NotBlank(" " + s) <==> NotBlank(s)
  {
    if i :| 0 <= i < |s| && !IsSpace(s[i]) {
      assert (" " + s)[i + 1] == s[i];
    }
    if j :| 0 <= j < |" " + s| && !IsSpace((" " + s)[j]) {
      assert s[j - 1] == (" " + s)[j];
    }
  }

  lemma {:induction false} CountAfterSpace(t: string)
    ensures CountNotBlank(Split(" " + t)) == CountNotBlank(Split(t))
  {
    var parts := Split(t);
    SplitAfterSpace(t);
    assert parts == [parts[0]] + parts[1..];
    CountConcat([" " + parts[0]], parts[1..]);
    CountConcat([parts[0]], parts[1..]);
    SpaceIsBlank(parts[0]);
  }

  lemma {:induction false} CountIsSplit(s: string)
    ensures CountRecipients(Some(s)) == CountNotBlank(Split(s))
  {
  }

  function CountEach(addresses: seq<string>): nat {
    if addresses == [] then 0
    else CountEach(addresses[..|addresses| - 1]) + CountRecipients(Some(addresses[|addresses| - 1]))
  }

  /** Joining loses no count: whatever the addresses are, the joined string counts as all of them together. */
  lemma {:induction false} CountJoined(addresses: seq<string>)
    ensures CountRecipients(Some(Join(addresses))) == CountEach(addresses)
  {
    if addresses == [] {
    } else if |addresses| == 1 {
      assert addresses[..0] == [];
    } else {
      var init, last := Join(addresses[..|addresses| - 1]), addresses[|addresses| - 1];
      CountJoined(addresses[..|addresses| - 1]);
      assert init + ", " + last == init + "," + (" " + last);
      SplitAtComma(init, " " + last);
      CountConcat(Split(init), Split(" " + last));
      CountAfterSpace(last);
      CountIsSplit(Join(addresses));
      CountIsSplit(init);
      CountIsSplit(last);
    }
  }

  /** Not blank and free of commas. */
  predicate Plain(address: string) {
    NotBlank(address) && ',' !in address
  }

  lemma {:induction false} SplitPlain(s: string)
    requires ',' !in s
    ensures Split(s) == [s]
  {
    if s != "" {
      SplitPlain(s[..|s| - 1]);
      assert s[..|s| - 1] + [s[|s| - 1]] == s;
    }
  }

  /** Counting what was joined gives back the number of addresses. */
  lemma {:induction false} CountRoundTrip(addresses: seq<string>)
    requires forall i :: 0 <= i < |addresses| ==> Plain(addresses[i])
    ensures CountRecipients(Some(Join(addresses))) == |addresses|
  {
    CountJoined(addresses);
    CountPlain(addresses);
  }

  lemma {:induction false} CountPlain(addresses: seq<string>)
    requires forall i :: 0 <= i < |addresses| ==> Plain(addresses[i])
    ensures CountEach(addresses) == |addresses|
  {
    if addresses != [] {
      var last := addresses[|addresses| - 1];
      CountPlain(addresses[..|addresses| - 1]);
      CountIsSplit(last);
      SplitPlain(last);
    }
  }

  /** What a joined list looks like: ", " between its entries. */
  lemma {:induction false} JoinMeans(addresses: seq<string>, address: string)
    ensures Join([]) == "" && Join([address]) == address
    ensures addresses != [] ==> Join(addresses + [address]) == Join(addresses) + ", " + address
  {
    assert (addresses + [address])[..|addresses|] == addresses;
  }

  /** The code points of white space, as strip() sees it. */
  predicate Blank(code: int) {
    || 9 <= code <= 13 || 28 <= code <= 32 || code == 133 || code == 160 || code == 5760 || 8192 <= code <= 8202
    || code == 8232 || code == 8233 || code == 8239 || code == 8287 || code == 12288
  }

  /** An entry counts if some character of it is not white space. */
  lemma {:induction false} CountsMeans(entry: string)
    requires ',' !in entry
    ensures CountRecipients(Some(entry)) == if forall i :: 0 <= i < |entry| ==> Blank(entry[i] as int) then 0 else 1
  {
    SplitPlain(entry);
    assert CountNotBlank([entry]) == if NotBlank(entry) then 1 else 0 by {
      assert [entry][..0] == [];
    }
    if i :| 0 <= i < |entry| && !Blank(entry[i] as int) {
      assert !IsSpace(entry[i]);
    } else {
      assert forall i :: 0 <= i < |entry| ==> Blank(entry[i] as int) && IsSpace(entry[i]);
    }
  }
}
