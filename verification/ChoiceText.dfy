/** The text a page carries its row choices in, `carrier=choice` and comma-separated, and what is read back from it. */
module ChoiceText {
  import opened Common

  // ----- what a carrier and a choice look like -----

  predicate Hex(c: char) { '0' <= c <= '9' || 'a' <= c <= 'f' }

  predicate Digit(c: char) { '0' <= c <= '9' }

  predicate IsCarrier(s: string) {
    s == "cover" || s == "none" || (|s| == 64 && forall i :: 0 <= i < |s| ==> Hex(s[i]))
  }

  predicate IsChoice(s: string) {
    s == "keep" || s == "archive" || (1 <= |s| <= 20 && forall i :: 0 <= i < |s| ==> Digit(s[i]))
  }

  predicate Valid(choices: map<string, string>) {
    forall k :: k in choices ==> IsCarrier(k) && IsChoice(choices[k])
  }

  // ----- splitting and joining -----

  function Split(text: string, sep: char): (parts: seq<string>)
    ensures |parts| >= 1
  {
    if text == "" then [""]
    else
      var rest := Split(text[1..], sep);
      if text[0] == sep then [""] + rest else [[text[0]] + rest[0]] + rest[1..]
  }

  function Join(parts: seq<string>, sep: char): string {
    if parts == [] then "" else if |parts| == 1 then parts[0] else parts[0] + [sep] + Join(parts[1..], sep)
  }

  /** The text before the first `sep`, and the text after it; nothing comes after where there is none. */
  function Partition(text: string, sep: char): (string, string) {
    if text == "" then ("", "")
    else if text[0] == sep then ("", text[1..])
    else var (before, after) := Partition(text[1..], sep); ([text[0]] + before, after)
  }

  lemma {:induction false} SplitFree(part: string, sep: char)
    requires sep !in part
    ensures Split(part, sep) == [part]
  {
    if part != "" {
      SplitFree(part[1..], sep);
      assert [part[0]] + part[1..] == part;
    }
  }

  lemma {:induction false} SplitFirst(part: string, rest: string, sep: char)
    requires sep !in part
    ensures Split(part + [sep] + rest, sep) == [part] + Split(rest, sep)
  {
    var text := part + [sep] + rest;
    if part == "" {
      assert text[1..] == rest;
    } else {
      assert text[1..] == part[1..] + [sep] + rest;
      SplitFirst(part[1..], rest, sep);
      assert [part[0]] + part[1..] == part;
      assert ([part[1..]] + Split(rest, sep))[1..] == Split(rest, sep);
    }
  }

  lemma {:induction false} SplitJoin(parts: seq<string>, sep: char)
    requires parts != [] && forall i :: 0 <= i < |parts| ==> sep !in parts[i]
    ensures Split(Join(parts, sep), sep) == parts
  {
    if |parts| == 1 {
      SplitFree(parts[0], sep);
    } else {
      SplitJoin(parts[1..], sep);
      SplitFirst(parts[0], Join(parts[1..], sep), sep);
    }
  }

  lemma {:induction false} PartitionAt(before: string, after: string, sep: char)
    requires sep !in before
    ensures Partition(before + [sep] + after, sep) == (before, after)
  {
    var text := before + [sep] + after;
    if before == "" {
      assert text[1..] == after;
    } else {
      assert text[1..] == before[1..] + [sep] + after;
      PartitionAt(before[1..], after, sep);
      assert [before[0]] + before[1..] == before;
    }
  }

  // ----- the order the choices are written in -----

  predicate Before(a: string, b: string) {
    a == "" || (b != "" && (a[0] < b[0] || (a[0] == b[0] && Before(a[1..], b[1..]))))
  }

  lemma BeforeIsTotal(a: string, b: string)
    ensures Before(a, a)
    ensures Before(a, b) || Before(b, a)
    ensures Before(a, b) && Before(b, a) ==> a == b
  {
    if a != "" && b != "" && a[0] == b[0] {
      BeforeIsTotal(a[1..], b[1..]);
      assert a == [a[0]] + a[1..] && b == [b[0]] + b[1..];
    }
  }

  lemma BeforeIsTransitive(a: string, b: string, c: string)
    requires Before(a, b) && Before(b, c)
    ensures Before(a, c)
  {
    if a != "" && a[0] == b[0] && b[0] == c[0] {
      BeforeIsTransitive(a[1..], b[1..], c[1..]);
    }
  }

  ghost predicate IsFirst(m: string, keys: set<string>) {
    m in keys && forall k :: k in keys ==> Before(m, k)
  }

  lemma {:induction false} FirstExists(keys: set<string>)
    requires keys != {}
    ensures exists m :: IsFirst(m, keys)
  {
    var k :| k in keys;
    BeforeIsTotal(k, k);
    if keys == {k} {
      assert IsFirst(k, keys);
    } else {
      FirstExists(keys - {k});
      var m :| IsFirst(m, keys - {k});
      BeforeIsTotal(k, m);
      if Before(m, k) {
        assert IsFirst(m, keys);
      } else {
        forall x | x in keys ensures Before(k, x) {
          if x != k {
            BeforeIsTransitive(k, m, x);
          }
        }
        assert IsFirst(k, keys);
      }
    }
  }

  ghost function First(keys: set<string>): (m: string)
    requires keys != {}
    ensures IsFirst(m, keys)
  {
    FirstExists(keys);
    var m :| IsFirst(m, keys);
    m
  }

  lemma ElementsCons(m: string, rest: seq<string>)
    ensures Elements([m] + rest) == {m} + Elements(rest)
  {
    assert forall k :: k in [m] + rest <==> k == m || k in rest;
  }

  ghost function Sorted(keys: set<string>): (s: seq<string>)
    ensures Elements(s) == keys
    ensures |s| == |keys|
    ensures keys != {} ==> s != []
  {
    if keys == {} then []
    else
      var m := First(keys);
      var rest := Sorted(keys - {m});
      ElementsCons(m, rest);
      assert {m} + (keys - {m}) == keys;
      [m] + rest
  }

  // ----- formatting and parsing -----

  function Entry(k: string, v: string): string {
    k + "=" + v
  }

  function Entries(keys: seq<string>, choices: map<string, string>): (entries: seq<string>)
    requires forall k :: k in keys ==> k in choices
    ensures |entries| == |keys|
  {
    seq(|keys|, i requires 0 <= i < |keys| => assert keys[i] in keys; Entry(keys[i], choices[keys[i]]))
  }

  ghost function Format(choices: map<string, string>): string {
    Join(Entries(Sorted(choices.Keys), choices), ',')
  }

  function Take(part: string, found: map<string, string>): map<string, string> {
    var (carrier, value) := Partition(part, '=');
    if IsCarrier(carrier) && IsChoice(value) then found[carrier := value] else found
  }

  function TakeAll(parts: seq<string>, found: map<string, string>): map<string, string> {
    if parts == [] then found else TakeAll(parts[1..], Take(parts[0], found))
  }

  function Parsed(text: string): map<string, string> {
    TakeAll(Split(text, ','), map[])
  }

  /** Anything but a valid carrier with a valid choice is dropped, and the last of two wins. */
  method Parse(text: string) returns (found: map<string, string>)
    ensures found == Parsed(text)
    ensures Valid(found)
  {
    found := map[];
    var parts := Split(text, ',');
    for i := 0 to |parts|
      invariant Valid(found)
      invariant TakeAll(parts[i..], found) == TakeAll(parts, map[])
    {
      var (carrier, value) := Partition(parts[i], '=');
      assert parts[i..][0] == parts[i] && parts[i..][1..] == parts[i + 1..];
      if IsCarrier(carrier) && IsChoice(value) {
        found := found[carrier := value];
      }
    }
  }

  lemma {:induction false} TakeAllValid(parts: seq<string>, found: map<string, string>)
    requires Valid(found)
    ensures Valid(TakeAll(parts, found))
    decreases |parts|
  {
    if parts != [] {
      TakeAllValid(parts[1..], Take(parts[0], found));
    }
  }

  /** Separators never occur inside a carrier or a choice. */
  lemma ValidTextIsFree(k: string, v: string)
    requires IsCarrier(k) && IsChoice(v)
    ensures ',' !in Entry(k, v) && '=' !in k
  {
  }

  lemma TakeEntry(k: string, v: string, found: map<string, string>)
    requires IsCarrier(k) && IsChoice(v)
    ensures Take(Entry(k, v), found) == found[k := v]
  {
    ValidTextIsFree(k, v);
    PartitionAt(k, v, '=');
    assert Entry(k, v) == k + ['='] + v;
  }

  lemma {:induction false} TakeEntries(keys: seq<string>, choices: map<string, string>, found: map<string, string>)
    requires Valid(choices) && forall k :: k in keys ==> k in choices
    ensures TakeAll(Entries(keys, choices), found).Keys == found.Keys + Elements(keys)
    ensures forall k :: k in TakeAll(Entries(keys, choices), found)
              ==> TakeAll(Entries(keys, choices), found)[k] == if k in keys then choices[k] else found[k]
    decreases |keys|
  {
    if keys != [] {
      var k := keys[0];
      TakeEntry(k, choices[k], found);
      assert Entries(keys, choices)[1..] == Entries(keys[1..], choices);
      TakeEntries(keys[1..], choices, found[k := choices[k]]);
    }
  }

  lemma NothingParsed()
    ensures Parsed("") == map[]
  {
    assert Split("", ',') == [""];
    assert Partition("", '=') == ("", "");
    assert Take("", map[]) == map[];
  }

  /** Reading back what was written gives the same choices. */
  lemma ParseFormat(choices: map<string, string>)
    requires Valid(choices)
    ensures Parsed(Format(choices)) == choices
  {
    var keys := Sorted(choices.Keys);
    if choices == map[] {
      assert Entries(keys, choices) == [];
      NothingParsed();
    } else {
      assert forall k :: k in keys <==> k in Elements(keys);
      SplitEntries(keys, choices);
      TakeEntries(keys, choices, map[]);
    }
  }

  lemma SplitEntries(keys: seq<string>, choices: map<string, string>)
    requires Valid(choices) && keys != [] && forall k :: k in keys ==> k in choices
    ensures Split(Join(Entries(keys, choices), ','), ',') == Entries(keys, choices)
  {
    var entries := Entries(keys, choices);
    forall i | 0 <= i < |entries| ensures ',' !in entries[i] {
      assert keys[i] in keys;
      ValidTextIsFree(keys[i], choices[keys[i]]);
    }
    SplitJoin(entries, ',');
  }

  /** One part is read exactly when its carrier and its choice have the forms the page writes, and else dropped. */
  lemma OnePartIsRead(carrier: string, choice: string)
    requires ',' !in carrier + choice && '=' !in carrier
    ensures Parsed(carrier + "=" + choice)
         == if (carrier in {"cover", "none"} || (|carrier| == 64 && forall i :: 0 <= i < 64 ==> carrier[i] in "0123456789abcdef"))
              && (choice in {"keep", "archive"} || (1 <= |choice| <= 20 && forall i :: 0 <= i < |choice| ==> choice[i] in "0123456789"))
            then map[carrier := choice] else map[]
  {
    var part := carrier + "=" + choice;
    assert ',' !in part;
    SplitFree(part, ',');
    assert part == carrier + ['='] + choice;
    PartitionAt(carrier, choice, '=');
    assert TakeAll([part], map[]) == Take(part, map[]) by {
      assert [part][1..] == [];
    }
    CarrierForms(carrier);
    ChoiceForms(choice);
  }

  lemma CarrierForms(carrier: string)
    ensures IsCarrier(carrier) <==> carrier in {"cover", "none"} || (|carrier| == 64 && forall i :: 0 <= i < 64 ==> carrier[i] in "0123456789abcdef")
  {
    forall i | 0 <= i < |carrier| ensures Hex(carrier[i]) <==> carrier[i] in "0123456789abcdef" {
      HexDigits(carrier[i]);
    }
  }

  lemma ChoiceForms(choice: string)
    ensures IsChoice(choice)
       <==> choice in {"keep", "archive"} || (1 <= |choice| <= 20 && forall i :: 0 <= i < |choice| ==> choice[i] in "0123456789")
  {
    forall i | 0 <= i < |choice| ensures Digit(choice[i]) <==> choice[i] in "0123456789" {
      HexDigits(choice[i]);
    }
  }

  lemma HexDigits(c: char)
    ensures Digit(c) <==> c in "0123456789"
    ensures Hex(c) <==> c in "0123456789abcdef"
  {
    var tens, all := "0123456789", "0123456789abcdef";
    if Digit(c) {
      assert tens[c as int - '0' as int] == c && all[c as int - '0' as int] == c;
    } else {
      assert c !in tens by {
        assert forall i :: 0 <= i < 10 ==> Digit(tens[i]);
      }
      if Hex(c) {
        assert all[10 + c as int - 'a' as int] == c;
      } else {
        assert c !in all by {
          assert forall i :: 0 <= i < 16 ==> Hex(all[i]);
        }
      }
    }
  }

  /** The carriers are written in the order of their text: at the first character in which two differ, or the shorter first. */
  lemma {:induction false} BeforeIs(a: string, b: string)
    ensures Before(a, b) <==> a <= b || exists i :: 0 <= i < |a| && i < |b| && a[..i] == b[..i] && a[i] < b[i]
  {
    if a != "" && b != "" {
      BeforeIs(a[1..], b[1..]);
      if a[0] < b[0] {
        assert a[..0] == b[..0];
      }
      if i :| 0 <= i < |a| - 1 && i < |b| - 1 && a[1..][..i] == b[1..][..i] && a[1..][i] < b[1..][i] && a[0] == b[0] {
        assert a[..i + 1] == [a[0]] + a[1..][..i] == b[..i + 1];
      }
      if i :| 0 < i < |a| && i < |b| && a[..i] == b[..i] && a[i] < b[i] {
        assert a[0] == a[..i][0] == b[0];
        assert a[1..][..i - 1] == a[..i][1..] == b[1..][..i - 1];
      }
      if a <= b {
        assert a[1..] <= b[1..];
      }
    }
  }

  lemma {:induction false} SortedAscends(keys: set<string>)
    ensures forall i, j :: 0 <= i < j < |Sorted(keys)| ==> Before(Sorted(keys)[i], Sorted(keys)[j])
  {
    if keys != {} {
      var m := First(keys);
      var rest := Sorted(keys - {m});
      SortedAscends(keys - {m});
      assert Sorted(keys) == [m] + rest;
      forall i | 0 <= i < |rest| ensures Before(m, rest[i]) {
        assert rest[i] in Elements(rest);
      }
    }
  }

  /** For any text at all, what is written for what was read is a normal form: reading and writing it again changes nothing. */
  lemma NormalForm(text: string)
    ensures Valid(Parsed(text))
    ensures Format(Parsed(Format(Parsed(text)))) == Format(Parsed(text))
    ensures Parsed(Format(Parsed(text))) == Parsed(text)
  {
    TakeAllValid(Split(text, ','), map[]);
    ParseFormat(Parsed(text));
  }

  /** So one set of choices is one text, and no two share one. */
  lemma FormatIsInjective(x: map<string, string>, y: map<string, string>)
    requires Valid(x) && Valid(y) && Format(x) == Format(y)
    ensures x == y
  {
    ParseFormat(x);
    ParseFormat(y);
  }

  /** A well-formed part naming carrier `k`. */
  predicate Says(part: string, k: string) {
    Partition(part, '=').0 == k && IsCarrier(k) && IsChoice(Partition(part, '=').1)
  }

  lemma {:induction false} UnsaidIsKept(parts: seq<string>, found: map<string, string>, k: string)
    requires forall i :: 0 <= i < |parts| ==> !Says(parts[i], k)
    ensures k in TakeAll(parts, found) <==> k in found
    ensures k in found ==> TakeAll(parts, found)[k] == found[k]
    decreases |parts|
  {
    if parts != [] {
      UnsaidIsKept(parts[1..], Take(parts[0], found), k);
    }
  }

  /** The choice read for a carrier is the last well-formed part's that names it. */
  lemma {:induction false} LastPartWins(parts: seq<string>, found: map<string, string>, k: string, last: nat)
    requires last < |parts| && Says(parts[last], k)
    requires forall i :: last < i < |parts| ==> !Says(parts[i], k)
    ensures k in TakeAll(parts, found) && TakeAll(parts, found)[k] == Partition(parts[last], '=').1
    decreases |parts|
  {
    if last == 0 {
      UnsaidIsKept(parts[1..], Take(parts[0], found), k);
    } else {
      LastPartWins(parts[1..], Take(parts[0], found), k, last - 1);
    }
  }
}
