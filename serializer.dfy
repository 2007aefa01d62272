/**
 * The field serializer of `src/index.js`: turns the form's entry list
 * (what `new FormData(form)` holds, in document order) into a plain
 * record, unless the form declares the multipart encoding, in which case
 * the entries are handed on untouched.
 */
module Serializer {
  import opened Common

  /** One `FormData` entry: (key, value). */
  type Entry = (string, string)

  /** A record value: one string, or every value of a repeated key in entry order. */
  datatype Value = Scalar(text: string) | List(items: seq<string>)

  /** The plain object that `serialize` builds: name to value. */
  type Record = map<string, Value>

  /** What `serialize` returns: the raw `FormData` (multipart) or the normalised record. */
  datatype Payload = Raw(entries: seq<Entry>) | Fields(record: Record)

  const MULTIPART: string := "multipart/form-data"
  const ARRAY_MARKER: string := "[]"

  // ---------------------------------------------------------------------
  // Encoding check: `(form.enctype || "").toLowerCase() === "multipart/form-data"`

  function LowerChar(c: char): char {
    if 'A' <= c <= 'Z' then (c as int + 32) as char else c
  }

  function UpperChar(c: char): char {
    if 'a' <= c <= 'z' then (c as int - 32) as char else c
  }

  /** `String.prototype.toLowerCase`, restricted to the ASCII letters. */
  function ToLower(s: string): (r: string)
    ensures |r| == |s|
    ensures forall i :: 0 <= i < |s| ==> r[i] == LowerChar(s[i])
  {
    if s == [] then [] else [LowerChar(s[0])] + ToLower(s[1..])
  }

  /** True when the declared encoding selects the raw `FormData` path; a missing encoding counts as "". */
  predicate IsMultipart(enctype: Option<string>)
    ensures IsMultipart(enctype) ==> enctype.Some? && |enctype.value| == |MULTIPART|
  {
    ToLower(enctype.GetOr("")) == MULTIPART
  }

  /** Lower-casing a character gives `m` exactly when it was `m` or its upper-case form. */
  lemma LowerCharIs(c: char, m: char)
    requires !('A' <= m <= 'Z')
    ensures LowerChar(c) == m <==> c == m || c == UpperChar(m)
  {
  }

  /**
   * The multipart path is taken for exactly the spellings of
   * "multipart/form-data" in any mix of upper and lower case, and never
   * for a missing encoding.
   */
  lemma MultipartSpellings(s: string)
    ensures IsMultipart(Some(s)) <==>
      |s| == |MULTIPART| && forall i :: 0 <= i < |s| ==> s[i] == MULTIPART[i] || s[i] == UpperChar(MULTIPART[i])
    ensures !IsMultipart(None)
  {
    assert forall i :: 0 <= i < |MULTIPART| ==> !('A' <= MULTIPART[i] <= 'Z');
    if |s| == |MULTIPART| {
      forall i | 0 <= i < |s|
        ensures LowerChar(s[i]) == MULTIPART[i] <==> s[i] == MULTIPART[i] || s[i] == UpperChar(MULTIPART[i])
      {
        LowerCharIs(s[i], MULTIPART[i]);
      }
      if forall i :: 0 <= i < |s| ==> s[i] == MULTIPART[i] || s[i] == UpperChar(MULTIPART[i]) {
        assert ToLower(s) == MULTIPART;
      }
    }
    assert ToLower("") == "";
  }

  // ---------------------------------------------------------------------
  // Per-key helpers: `key.replace(/\[\]$/, "")` and `formData.getAll(key)`

  predicate HasArrayMarker(key: string) {
    |key| >= 2 && key[|key| - 2..] == ARRAY_MARKER
  }

  /** Removes one trailing "[]"; a key without it is returned unchanged. */
  function StripArrayMarker(key: string): (name: string)
    ensures HasArrayMarker(key) ==> name + ARRAY_MARKER == key
    ensures !HasArrayMarker(key) ==> name == key
  {
    if HasArrayMarker(key) then key[..|key| - 2] else key
  }

  /** Exactly one marker is removed: "a[][]" is stored under "a[]". */
  lemma StripOneMarker(name: string)
    ensures StripArrayMarker(name + ARRAY_MARKER) == name
  {
    assert (name + ARRAY_MARKER)[..|name|] == name;
  }

  /** Every value stored under exactly `key`, in entry order. */
  function GetAll(entries: seq<Entry>, key: string): (values: seq<string>)
    ensures |values| <= |entries|
  {
    if entries == [] then []
    else (if entries[0].0 == key then [entries[0].1] else []) + GetAll(entries[1..], key)
  }

  /** `getAll` returns exactly the values stored under its key. */
  lemma {:induction false} GetAllMembers(entries: seq<Entry>, key: string)
    ensures forall v :: v in GetAll(entries, key) <==> (key, v) in entries
  {
    if entries != [] {
      GetAllMembers(entries[1..], key);
      assert entries == [entries[0]] + entries[1..];
    }
  }

  /** `getAll` distributes over concatenation of entry lists, so it keeps entry order. */
  lemma {:induction false} GetAllAppend(a: seq<Entry>, b: seq<Entry>, key: string)
    ensures GetAll(a + b, key) == GetAll(a, key) + GetAll(b, key)
  {
    if a == [] {
      assert a + b == b;
    } else {
      assert (a + b)[1..] == a[1..] + b;
      GetAllAppend(a[1..], b, key);
    }
  }

  /** A key that no entry has gets no values. */
  lemma {:induction false} GetAllAbsent(entries: seq<Entry>, key: string)
    requires forall j :: 0 <= j < |entries| ==> entries[j].0 != key
    ensures GetAll(entries, key) == []
  {
    if entries != [] {
      GetAllAbsent(entries[1..], key);
    }
  }

  /** A key that occurs in one entry only has exactly that entry's value. */
  lemma {:induction false} GetAllUnique(entries: seq<Entry>, i: nat)
    requires i < |entries|
    requires forall j :: 0 <= j < |entries| && j != i ==> entries[j].0 != entries[i].0
    ensures GetAll(entries, entries[i].0) == [entries[i].1]
  {
    var key := entries[i].0;
    var rest := entries[1..];
    assert forall k :: 0 <= k < |rest| ==> rest[k] == entries[k + 1];
    if i == 0 {
      GetAllAbsent(rest, key);
    } else {
      assert rest[i - 1] == entries[i];
      GetAllUnique(rest, i - 1);
    }
  }

  /** A single value becomes a scalar; several stay a list. */
  function Collapse(values: seq<string>): (v: Value)
    ensures v.Scalar? <==> |values| == 1
    ensures v.Scalar? ==> v.text == values[0]
    ensures v.List? ==> v.items == values
  {
    if |values| == 1 then Scalar(values[0]) else List(values)
  }

  // ---------------------------------------------------------------------
  // The normalising loop, as a fold over its turns

  /** One turn of the loop: the name it writes and the value it assigns there. */
  type Turn = (string, Value)

  /** The turn for entry `i`: its key without the marker, and all values of that key, collapsed. */
  function TurnAt(entries: seq<Entry>, i: nat): Turn
    requires i < |entries|
  {
    (StripArrayMarker(entries[i].0), Collapse(GetAll(entries, entries[i].0)))
  }

  /** The turns for the first `n` entries: `formData.keys()` yields one key per entry, repeated keys included. */
  function TurnsUpTo(entries: seq<Entry>, n: nat): (turns: seq<Turn>)
    requires n <= |entries|
    ensures |turns| == n
    ensures forall i :: 0 <= i < n ==> turns[i] == TurnAt(entries, i)
  {
    if n == 0 then [] else TurnsUpTo(entries, n - 1) + [TurnAt(entries, n - 1)]
  }

  function Turns(entries: seq<Entry>): (turns: seq<Turn>)
    ensures |turns| == |entries|
    ensures forall i :: 0 <= i < |entries| ==> turns[i] == TurnAt(entries, i)
  {
    TurnsUpTo(entries, |entries|)
  }

  /** Assign the value; a value of "" is deleted again, leaving the name absent. */
  function Put(data: Record, turn: Turn): (r: Record)
    ensures turn.0 in r <==> turn.1 != Scalar("")
    ensures turn.0 in r ==> r[turn.0] == turn.1
    // every other name is left as it was
    ensures forall name :: name != turn.0 ==> Get(r, name) == Get(data, name)
  {
    if turn.1 == Scalar("") then data - {turn.0} else data[turn.0 := turn.1]
  }

  /** The record after the first `n` turns. */
  function ApplyTurns(turns: seq<Turn>, n: nat): Record
    requires n <= |turns|
  {
    if n == 0 then map[] else Put(ApplyTurns(turns, n - 1), turns[n - 1])
  }

  /** The record's values are never the empty string: `delete` removes each one as it is assigned. */
  lemma {:induction false} ApplyTurnsNoEmpty(turns: seq<Turn>, n: nat)
    requires n <= |turns|
    ensures forall name :: name in ApplyTurns(turns, n) ==> ApplyTurns(turns, n)[name] != Scalar("")
  {
    if n > 0 {
      ApplyTurnsNoEmpty(turns, n - 1);
      var before := ApplyTurns(turns, n - 1);
      forall name | name in ApplyTurns(turns, n)
        ensures ApplyTurns(turns, n)[name] != Scalar("")
      {
        if name != turns[n - 1].0 {
          assert Get(ApplyTurns(turns, n), name) == Get(before, name);
        }
      }
    }
  }

  function Normalize(entries: seq<Entry>): (r: Record)
    ensures forall name :: name in r ==> r[name] != Scalar("")
  {
    ApplyTurnsNoEmpty(Turns(entries), |entries|);
    ApplyTurns(Turns(entries), |entries|)
  }

  /** What `serialize` returns for these entries and this declared encoding. */
  function Serialization(entries: seq<Entry>, enctype: Option<string>): (p: Payload)
    ensures p.Raw? <==> IsMultipart(enctype)
    ensures p.Raw? ==> p.entries == entries
    ensures p.Fields? ==> p.record == Normalize(entries)
  {
    if IsMultipart(enctype) then Raw(entries) else Fields(Normalize(entries))
  }

  /** `serialize(form)`: the multipart bypass, else the normalising loop. */
  method Serialize(entries: seq<Entry>, enctype: Option<string>) returns (p: Payload)
    ensures p == Serialization(entries, enctype)
  {
    var lowered := ToLower(enctype.GetOr(""));
    if lowered == MULTIPART {
      return Raw(entries);
    }
    var data := NormalizeEntries(entries);
    return Fields(data);
  }

  /** The loop of `serialize` over `formData.keys()`. */
  method NormalizeEntries(entries: seq<Entry>) returns (data: Record)
    ensures data == Normalize(entries)
  {
    ghost var turns := Turns(entries);
    data := map[];
    var i := 0;
    while i < |entries|
      invariant 0 <= i <= |entries|
      invariant data == ApplyTurns(turns, i)
    {
      var key := entries[i].0;
      var name := StripArrayMarker(key);
      // data[name] = getAll(key), then a single value replaces the array
      var values := GetAll(entries, key);
      var value := Collapse(values);
      assert turns[i] == (name, value);
      // assigning "" and then deleting it leaves the name absent
      if value == Scalar("") {
        data := data - {name};
      } else {
        data := data[name := value];
      }
      assert data == Put(ApplyTurns(turns, i), turns[i]);
      i := i + 1;
    }
  }

  // ---------------------------------------------------------------------
  // What the record holds

  /** The value under `name`, if any. */
  function Get(data: Record, name: string): Option<Value> {
    if name in data then Some(data[name]) else None
  }

  /** The index of the last of the first `n` turns that writes `name`. */
  function LastTurn(turns: seq<Turn>, n: nat, name: string): (r: Option<nat>)
    requires n <= |turns|
    ensures r.Some? ==> r.value < n
  {
    if n == 0 then None
    else if turns[n - 1].0 == name then Some(n - 1)
    else LastTurn(turns, n - 1, name)
  }

  /** `LastTurn` finds the last turn writing `name`, and finds none only when no turn does. */
  lemma {:induction false} LastTurnIsLast(turns: seq<Turn>, n: nat, name: string)
    requires n <= |turns|
    ensures var r := LastTurn(turns, n, name);
      && (r.Some? ==> turns[r.value].0 == name && forall k :: r.value < k < n ==> turns[k].0 != name)
      && (r.None? ==> forall k :: 0 <= k < n ==> turns[k].0 != name)
  {
    if n > 0 && turns[n - 1].0 != name {
      LastTurnIsLast(turns, n - 1, name);
    }
  }

  /** What the last turn writing `name` leaves there: its value, or nothing if that is "". */
  function Expected(turns: seq<Turn>, n: nat, name: string): Option<Value>
    requires n <= |turns|
  {
    match LastTurn(turns, n, name)
    case None => None
    case Some(j) => if turns[j].1 == Scalar("") then None else Some(turns[j].1)
  }

  /**
   * Later turns overwrite earlier ones: what the record holds under `name`
   * is decided by the last turn that writes it.
   */
  lemma {:induction false} ApplyTurnsAt(turns: seq<Turn>, n: nat, name: string)
    requires n <= |turns|
    ensures Get(ApplyTurns(turns, n), name) == Expected(turns, n, name)
  {
    if n > 0 {
      ApplyTurnsAt(turns, n - 1, name);
      if turns[n - 1].0 != name {
        assert Expected(turns, n, name) == Expected(turns, n - 1, name);
        assert Get(ApplyTurns(turns, n), name) == Get(ApplyTurns(turns, n - 1), name);
      }
    }
  }

  /**
   * A name is in the record exactly when some entry key strips to it and the
   * values of the LAST such key do not collapse to ""; its value is then
   * those values, collapsed.
   */
  lemma NormalizeAt(entries: seq<Entry>, name: string)
    ensures var last := LastTurn(Turns(entries), |entries|, name);
      && (last.None? ==> forall i :: 0 <= i < |entries| ==> StripArrayMarker(entries[i].0) != name)
      && (last.Some? ==> StripArrayMarker(entries[last.value].0) == name &&
                         forall k :: last.value < k < |entries| ==> StripArrayMarker(entries[k].0) != name)
      && Get(Normalize(entries), name) ==
           match last
           case None => None
           case Some(j) =>
             var v := Collapse(GetAll(entries, entries[j].0));
             if v == Scalar("") then None else Some(v)
  {
    var turns := Turns(entries);
    ApplyTurnsAt(turns, |entries|, name);
    LastTurnIsLast(turns, |entries|, name);
    forall i | 0 <= i < |entries|
      ensures turns[i].0 == StripArrayMarker(entries[i].0)
    {
      assert turns[i] == TurnAt(entries, i);
    }
  }

  /** Every name in the record comes from an entry key with at most one "[]" removed. */
  lemma NormalizeOnlyEntryNames(entries: seq<Entry>, name: string)
    requires name in Normalize(entries)
    ensures exists i :: 0 <= i < |entries| && StripArrayMarker(entries[i].0) == name
  {
    NormalizeAt(entries, name);
    var j := LastTurn(Turns(entries), |entries|, name).value;
    assert StripArrayMarker(entries[j].0) == name;
  }

  /** No two different entry keys strip to the same name (no "x" beside "x[]"). */
  predicate NamesDistinct(entries: seq<Entry>) {
    forall i, j ::
      0 <= i < |entries| && 0 <= j < |entries| && StripArrayMarker(entries[i].0) == StripArrayMarker(entries[j].0)
      ==> entries[i].0 == entries[j].0
  }

  /**
   * When names are distinct, each entry key's name maps to its one value as a
   * scalar, or to the list of all its values in entry order; a key whose
   * only value is "" is absent, and a list is kept even if it holds "".
   */
  lemma NormalizeEntry(entries: seq<Entry>, i: nat)
    requires NamesDistinct(entries) && i < |entries|
    ensures var key := entries[i].0; var name := StripArrayMarker(key); var values := GetAll(entries, key);
      var r := Normalize(entries);
      && |values| >= 1
      && (|values| == 1 && values[0] != "" ==> name in r && r[name] == Scalar(values[0]))
      && (values == [""] ==> name !in r)
      && (|values| >= 2 ==> name in r && r[name] == List(values))
  {
    var key := entries[i].0;
    var name := StripArrayMarker(key);
    assert (key, entries[i].1) in entries;
    GetAllMembers(entries, key);
    NormalizeAt(entries, name);
    var last := LastTurn(Turns(entries), |entries|, name);
    assert entries[last.value].0 == key;
  }

  /** With distinct plain keys, each turn writes its entry's own key and value. */
  lemma PlainTurns(entries: seq<Entry>)
    requires forall i :: 0 <= i < |entries| ==> !HasArrayMarker(entries[i].0)
    requires forall i, j :: 0 <= i < j < |entries| ==> entries[i].0 != entries[j].0
    ensures forall i :: 0 <= i < |entries| ==> Turns(entries)[i] == (entries[i].0, Scalar(entries[i].1))
  {
    forall i | 0 <= i < |entries|
      ensures Turns(entries)[i] == (entries[i].0, Scalar(entries[i].1))
    {
      GetAllUnique(entries, i);
    }
  }

  /** Distinct keys without "[]", each with one non-empty value, come out exactly as they went in. */
  lemma PlainFields(entries: seq<Entry>)
    requires forall i :: 0 <= i < |entries| ==> !HasArrayMarker(entries[i].0) && entries[i].1 != ""
    requires forall i, j :: 0 <= i < j < |entries| ==> entries[i].0 != entries[j].0
    ensures forall i :: 0 <= i < |entries| ==>
      entries[i].0 in Normalize(entries) && Normalize(entries)[entries[i].0] == Scalar(entries[i].1)
    ensures forall name :: name in Normalize(entries) ==> exists i :: 0 <= i < |entries| && entries[i].0 == name
  {
    assert NamesDistinct(entries);
    forall i | 0 <= i < |entries|
      ensures entries[i].0 in Normalize(entries) && Normalize(entries)[entries[i].0] == Scalar(entries[i].1)
    {
      GetAllUnique(entries, i);
      NormalizeEntry(entries, i);
    }
    forall name | name in Normalize(entries)
      ensures exists i :: 0 <= i < |entries| && entries[i].0 == name
    {
      NormalizeOnlyEntryNames(entries, name);
    }
  }

  /** An empty entry list serialises to the empty record unless the multipart path is taken. */
  lemma EmptyEntries(enctype: Option<string>)
    ensures Serialization([], enctype) == if IsMultipart(enctype) then Raw([]) else Fields(map[])
  {
  }

  // ---------------------------------------------------------------------
  // Worked examples

  /** One text input with its default value. */
  lemma SingleTextInput()
    ensures Serialization([("hello", "world")], None) == Fields(map["hello" := Scalar("world")])
  {
    var entries := [("hello", "world")];
    assert !IsMultipart(None) by { MultipartSpellings(""); }
    assert !HasArrayMarker("hello");
    PlainFields(entries);
    assert entries[0].0 == "hello";
  }

  /** The fields the browser lists for the text input, two checked checkboxes and a radio group. */
  const SIGNUP: seq<Entry> := [("name", "Francisco"), ("subscribe", "on"), ("terms", "accepted"), ("gender", "female")]

  /** Each of those distinct plain fields gives one scalar turn. */
  lemma SignupTurns()
    ensures Turns(SIGNUP) == [("name", Scalar("Francisco")), ("subscribe", Scalar("on")),
                              ("terms", Scalar("accepted")), ("gender", Scalar("female"))]
  {
    assert !HasArrayMarker("name") && !HasArrayMarker("subscribe");
    assert !HasArrayMarker("terms") && !HasArrayMarker("gender");
    PlainTurns(SIGNUP);
  }

  /** Text inputs, checkboxes and a radio group come out as four scalar pairs. */
  lemma CheckboxesAndRadios()
    ensures Serialization(SIGNUP, None)
         == Fields(map["name" := Scalar("Francisco"), "subscribe" := Scalar("on"),
                       "terms" := Scalar("accepted"), "gender" := Scalar("female")])
  {
    assert !IsMultipart(None) by { MultipartSpellings(""); }
    SignupTurns();
    var turns := Turns(SIGNUP);
    assert ApplyTurns(turns, 1) == map["name" := Scalar("Francisco")];
    assert ApplyTurns(turns, 2) == map["name" := Scalar("Francisco"), "subscribe" := Scalar("on")];
    assert ApplyTurns(turns, 3) == map["name" := Scalar("Francisco"), "subscribe" := Scalar("on"),
                                       "terms" := Scalar("accepted")];
  }

  /** Two fields named "tag[]" give the list of both values under "tag". */
  lemma RepeatedArrayKey()
    ensures Normalize([("tag[]", "a"), ("tag[]", "b")]) == map["tag" := List(["a", "b"])]
  {
    var entries := [("tag[]", "a"), ("tag[]", "b")];
    assert StripArrayMarker("tag[]") == "tag";
    assert GetAll(entries, "tag[]") == ["a", "b"];
    assert ApplyTurns(Turns(entries), 1) == map["tag" := List(["a", "b"])];
  }

  /** A lone "tag[]" field still collapses to a scalar, and a lone empty value disappears. */
  lemma SingleArrayKeyAndEmptyValue()
    ensures Normalize([("tag[]", "a"), ("note", "")]) == map["tag" := Scalar("a")]
  {
    var entries := [("tag[]", "a"), ("note", "")];
    assert StripArrayMarker("tag[]") == "tag";
    assert StripArrayMarker("note") == "note";
    assert GetAll(entries, "tag[]") == ["a"];
    assert GetAll(entries, "note") == [""];
    assert ApplyTurns(Turns(entries), 1) == map["tag" := Scalar("a")];
  }

  /** "x[]" and "x" share the name "x": the key visited last overwrites the other's values. */
  lemma MarkedAndPlainKeyCollide()
    ensures Normalize([("x[]", "a"), ("x", "b")]) == map["x" := Scalar("b")]
  {
    var entries := [("x[]", "a"), ("x", "b")];
    assert StripArrayMarker("x[]") == "x";
    assert StripArrayMarker("x") == "x";
    assert GetAll(entries, "x") == ["b"];
    assert GetAll(entries, "x[]") == ["a"];
  }
}
