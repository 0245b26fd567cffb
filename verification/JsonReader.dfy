/** JSONReader: what it makes of any text, well formed or not. */
module JsonReader {
  import opened Options
  import opened Ascii
  import opened Json

  /** What this model does not decide: which strings are dates, which tokens numbers. */
  datatype Oracle = Oracle(isNumber: string -> bool, isDate: string -> bool)

  function Drop(s: string, n: nat): (r: string)
    ensures |r| <= |s| && (n > 0 && s != "" ==> |r| < |s|)
  {
    if n <= |s| then s[n..] else ""
  }

  /** current(): blanks are passed over. */
  function Trim(r: string): (s: string)
    ensures |s| <= |r| && (s != "" ==> !IsSpace(s[0]))
  {
    if r != "" && IsSpace(r[0]) then Trim(r[1..]) else r
  }

  function TrimRight(r: string): (s: string)
    ensures |s| <= |r| && s == r[..|s|]
    ensures r != "" && !IsSpace(r[0]) ==> s != ""
  {
    if r != "" && IsSpace(r[|r| - 1]) then TrimRight(r[..|r| - 1]) else r
  }

  /** How long the text is before its closing quote, a backslash covering the next character. */
  function TextSize(r: string): (n: Option<nat>)
    ensures n.Some? ==> n.value < |r| && r[n.value] == '\"'
    decreases |r|
  {
    if r == "" then None
    else if r[0] == '\"' then Some(0)
    else if r[0] == '\\' then if |r| == 1 then None else More(2, TextSize(r[2..]))
    else More(1, TextSize(r[1..]))
  }

  function More(k: nat, n: Option<nat>): (m: Option<nat>)
    ensures m.Some? <==> n.Some?
    ensures n.Some? ==> m.value == n.value + k
  {
    if n.None? then None else Some(n.value + k)
  }

  lemma TextStops(r: string)
    ensures r == "" ==> TextSize(r) == None
    ensures r != "" && r[0] == '\"' ==> TextSize(r) == Some(0)
  {
  }

  lemma TextStep(r: string)
    requires r != "" && r[0] != '\"'
    ensures r[0] != '\\' ==> TextSize(r) == More(1, TextSize(r[1..]))
    ensures r[0] == '\\' ==> TextSize(r) == if |r| == 1 then None else More(2, TextSize(r[2..]))
  {
  }

  /** jumpToString: a quoted text at the front of `rest`, or nothing left to read. */
  datatype Jump = Jump(found: bool, text: string, rest: string)

  function ToString(r: string): (j: Jump)
    ensures |j.rest| <= |r|
    ensures j.found ==> |j.text| + 2 <= |j.rest| && j.rest[0] == '\"'
  {
    var s := Trim(r);
    if s == "" || s[0] != '\"' || TextSize(s[1..]).None? then Jump(false, "", "")
    else Jump(true, s[1..TextSize(s[1..]).value + 1], s)
  }

  // ----- the next value's type -----------------------------------------------------------

  datatype Token = End | Nil | Truth(b: bool) | Num | Str | DateText | Arr | Obj

  /** The type, the text it spans, and what is ahead, the value itself included. */
  datatype Following = Following(token: Token, text: string, rest: string)

  const NOTHING := Following(End, "", "")

  /** A bare token: up to a separator, its first character whatever it is. */
  function TokenSize(r: string): (n: nat)
    ensures n <= |r|
  {
    if r == "" || r[0] in ",}]" then 0 else 1 + TokenSize(r[1..])
  }

  function Bare(o: Oracle, s: string): (f: Following)
    requires s != ""
    ensures f.token != End ==> f.rest == s && |f.text| <= |s|
    ensures f.token in {End, Nil, Truth(true), Truth(false), Num}
    ensures f.token == Nil ==> |f.text| == 4
    ensures f.token != End && !IsSpace(s[0]) ==> f.text != ""
  {
    var text := TrimRight(s[..1 + TokenSize(s[1..])]);
    if SameLetters(text, "true") then Following(Truth(true), text, s)
    else if SameLetters(text, "null") then Following(Nil, text, s)
    else if SameLetters(text, "false") then Following(Truth(false), text, s)
    else if o.isNumber(text) then Following(Num, text, s)
    else NOTHING
  }

  /** followingType: a comma before the value is passed over, but not two. */
  function Follow(o: Oracle, r: string): (f: Following)
    ensures |f.rest| <= |r| && |f.text| <= |f.rest|
    ensures f.token != End ==> f.rest != ""
    ensures f.token in {Nil, Truth(true), Truth(false), Num} ==> f.text != ""
    decreases |r|
  {
    var s := Trim(r);
    if s == "" then NOTHING
    else if s[0] == ',' then
      var s1 := Trim(s[1..]);
      if s1 == "" || s1[0] == ',' || s1[0] == '}' || s1[0] == ']' then NOTHING else Follow(o, s1)
    else if s[0] == '{' then Following(Obj, "", s)
    else if s[0] == '[' then Following(Arr, "", s)
    else if s[0] == '}' || s[0] == ']' then NOTHING
    else if s[0] == '\"' then
      var j := ToString(s);
      if !j.found then NOTHING else Following(if o.isDate(j.text) then DateText else Str, j.text, s)
    else Bare(o, s)
  }

  // ----- counting the elements of an array ------------------------------------------------------

  /** The counter's state: depth, whether a value is still awaited, whether the
      current element is counted, and the count. */
  datatype Tally = Tally(inner: nat, nothing: bool, done: bool, count: nat)

  function Counted(t: Tally): Tally
  {
    if t.inner == 0 && !t.done && !t.nothing then t.(count := t.count + 1, done := true) else t
  }

  datatype Count = Count(count: nat, lost: bool)

  /** One turn of countArrayElement's loop: the end, or how far it moves and the new state. */
  datatype Turn = Stop(result: Count) | Go(moved: nat, t: Tally)

  function CountTurn(s: string, t: Tally): (turn: Turn)
    ensures turn.Go? ==> 0 < turn.moved <= |s|
  {
    if s == "" || (t.inner == 0 && s[0] == ']') then Stop(Count(t.count, false))
    else if s[0] == '\"' then
      var n := TextSize(s[1..]);
      if n.None? then Stop(Count(t.count, true)) else Go(n.value + 2, Counted(t.(nothing := false)))
    else if s[0] == '{' || s[0] == '[' then Go(1, Counted(t.(inner := t.inner + 1, nothing := true)))
    else if s[0] == '}' || s[0] == ']' then
      if t.inner == 0 then Stop(Count(t.count, true)) else Go(1, Counted(t.(inner := t.inner - 1, nothing := false)))
    else if s[0] == ',' then
      if t.nothing then Stop(Count(t.count, true))
      else Go(1, Counted(t.(nothing := true, done := if t.inner == 0 then false else t.done)))
    else Go(1, Counted(if IsSpace(s[0]) then t else t.(nothing := false)))
  }

  /** The whole loop; `lost` when it gave the text up. */
  function CountFrom(s: string, t: Tally): Count
    decreases |s|
  {
    var turn := CountTurn(s, t);
    if turn.Stop? then turn.result else CountFrom(s[turn.moved..], turn.t)
  }

  function CountElements(r: string): Count
  {
    CountFrom(Trim(r), Tally(0, true, false, 0))
  }

  // ----- reading -----------------------------------------------------------------------------------

  datatype Read = Read(ok: bool, calls: seq<Call>, rest: string)

  function With(calls: seq<Call>, x: Read): Read
  {
    Read(x.ok, calls + x.calls, x.rest)
  }

  /** Once raw bytes are written, the rest of their object goes nowhere. */
  function Said(mute: bool, calls: seq<Call>): seq<Call>
  {
    if mute then [] else calls
  }

  function ReadNext(o: Oracle, r: string): (x: Read)
    ensures |x.rest| <= |r| && (x.ok ==> |x.rest| < |r|)
    decreases |r|, 3, 0
  {
    var f := Follow(o, r);
    if f.token == End then Read(false, [], f.rest) else ReadOne(o, f)
  }

  function ReadOne(o: Oracle, f: Following): (x: Read)
    requires f.rest != "" && (f.token in {Nil, Truth(true), Truth(false), Num} ==> f.text != "")
    ensures |x.rest| < |f.rest|
    decreases |f.rest|, 2, 0
  {
    match f.token
    case Str => Read(true, [WriteString(f.text)], Drop(f.rest, |f.text| + 2))
    case Num => Read(true, [WriteNumber(f.text)], Drop(f.rest, |f.text|))
    case Truth(b) => Read(true, [WriteBoolean(b)], Drop(f.rest, |f.text|))
    case DateText => Read(true, [WriteDate(f.text)], Drop(f.rest, |f.text| + 2))
    case Nil => Read(true, [WriteNull], Drop(f.rest, 4))
    case Arr => ReadArray(o, f.rest[1..])
    case _ => ReadFields(o, Drop(f.rest, 1), false, false)
  }

  /** Behind the bracket. */
  function ReadArray(o: Oracle, r: string): (x: Read)
    ensures |x.rest| <= |r|
    decreases |r|, 5, 0
  {
    var c := CountElements(r);
    var items := ReadItems(o, if c.lost then "" else Trim(r), c.count);
    Read(true, [BeginArray(c.count)] + items.calls + [EndArray], Drop(Trim(items.rest), 1))
  }

  /** As many values as counted, null for each one missing. */
  function ReadItems(o: Oracle, r: string, n: nat): (x: Read)
    ensures |x.rest| <= |r|
    decreases |r|, 4, n
  {
    if n == 0 then Read(true, [], r)
    else
      var first := ReadNext(o, r);
      With(first.calls + (if first.ok then [] else [WriteNull]), ReadItems(o, first.rest, n - 1))
  }

  /** The property list, its comma and name still to come. */
  function ReadFields(o: Oracle, r: string, started: bool, mute: bool): (x: Read)
    ensures |x.rest| <= |r|
    decreases |r|, 1, 0
  {
    var s := Trim(r);
    if s == "" || s[0] == '}' then
      Read(true, Said(mute, (if started then [] else [BeginObject(None)]) + [EndObject]), Drop(s, 1))
    else if !started then ReadField(o, s, false, mute)
    else if s[0] != ',' then Read(true, Said(mute, [EndObject]), "")
    else
      var s1 := Trim(s[1..]);
      if s1 == "" then Read(true, Said(mute, [EndObject]), "") else ReadField(o, s1, true, mute)
  }

  /** A malformed property ends the object, or refuses it if it has not begun. */
  function Broken(started: bool, mute: bool): Read
  {
    Read(started, if started then Said(mute, [EndObject]) else [], "")
  }

  predicate IsTypeKey(name: string)
  {
    SameLetters(name, "__type")
  }

  predicate IsBinKey(name: string)
  {
    SameLetters(name, "__bin")
  }

  function ReadField(o: Oracle, r: string, started: bool, mute: bool): (x: Read)
    requires r != ""
    ensures |x.rest| <= |r|
    decreases |r|, 0, 0
  {
    var key := ToString(r);
    if !key.found then Broken(started, mute)
    else
      var colon := Trim(Drop(key.rest, |key.text| + 2));
      if colon == "" || colon[0] != ':' then Broken(started, mute)
      else if started then ReadProperty(o, key.text, colon[1..], [], mute)
      else
        var value := Trim(colon[1..]);
        if value == "" then Read(false, [], "")
        else if value[0] == '\"' && (IsTypeKey(key.text) || IsBinKey(key.text)) then
          var text := ToString(value);
          if !text.found then Read(false, [], "")
          else
            var later := Drop(text.rest, |text.text| + 2);
            if IsTypeKey(key.text) then With(Said(mute, [BeginObject(Some(text.text))]), ReadFields(o, later, true, mute))
            else With(Said(mute, [WriteByte(text.text)]), ReadFields(o, later, false, true))
        else ReadProperty(o, key.text, value, [BeginObject(None)], mute)
  }

  /** A name and, behind the colon, its value. */
  function ReadProperty(o: Oracle, name: string, r: string, begun: seq<Call>, mute: bool): (x: Read)
    ensures |x.rest| <= |r|
    decreases |r|, 6, 0
  {
    var calls := Said(mute, begun + [PropertyName(name)]);
    var value := ReadNext(o, r);
    var said := Said(mute, value.calls);
    if !value.ok then Read(true, calls + said + Said(mute, [WriteNull, EndObject]), value.rest)
    else With(calls + said, ReadFields(o, value.rest, true, mute))
  }

  // ----- the whole text -------------------------------------------------------------------------------

  /** The constructor's check: what there is to read between the outer brackets. */
  function Content(text: string): Option<string>
  {
    var s := Trim(text);
    if s == "" || s[0] !in "[{" then None
    else
      var r := if s[0] == '[' then Trim(s[1..]) else s;
      var last := TrimRight(r);
      if last == "" then None
      else if s[0] == '[' then if last[|last| - 1] == ']' then Some(last[..|last| - 1]) else None
      else if last[|last| - 1] == '}' then Some(r)
      else None
  }

  /** read: value after value until there is none. */
  function ReadAll(o: Oracle, r: string): Read
    decreases |r|
  {
    var x := ReadNext(o, r);
    if !x.ok then x else With(x.calls, ReadAll(o, x.rest))
  }

  // ----- the reader object ----------------------------------------------------------------------

  class JSONReader {
    const text: string
    const oracle: Oracle
    var pos: nat

    predicate Valid()
      reads this
    {
      pos <= |text|
    }

    function Ahead(): string
      requires Valid()
      reads this
    {
      text[pos..]
    }

    constructor (text: string, oracle: Oracle)
      ensures Valid() && Ahead() == text && this.oracle == oracle
    {
      this.text, this.oracle, pos := text, oracle, 0;
    }

    /** reader.next: no further than the end. */
    method Skip(n: nat)
      requires Valid()
      modifies this
      ensures Valid() && Ahead() == Drop(old(Ahead()), n)
    {
      pos := if n > |text| - pos then |text| else pos + n;
    }

    method SkipAll()
      requires Valid()
      modifies this
      ensures Valid() && Ahead() == ""
    {
      pos := |text|;
    }

    method Current() returns (some: bool)
      requires Valid()
      modifies this
      ensures Valid() && Ahead() == Trim(old(Ahead()))
      ensures some == (Ahead() != "") == (pos < |text|)
    {
      while pos < |text| && IsSpace(text[pos])
        invariant Valid() && Trim(Ahead()) == Trim(old(Ahead()))
      {
        assert Ahead()[1..] == text[pos + 1..];
        pos := pos + 1;
      }
      some := pos < |text|;
    }

    method JumpTo(marker: char) returns (found: bool)
      requires Valid()
      modifies this
      ensures Valid() && found == (Trim(old(Ahead())) != "" && Trim(old(Ahead()))[0] == marker)
      ensures Ahead() == if found then Trim(old(Ahead())) else ""
    {
      var some := Current();
      if !some || text[pos] != marker {
        SkipAll();
        return false;
      }
      return true;
    }

    /** Before a quoted text: its size. */
    method JumpToString() returns (found: bool, value: string)
      requires Valid()
      modifies this
      ensures Valid() && ToString(old(Ahead())) == Jump(found, value, Ahead())
    {
      value := "";
      found := JumpTo('\"');
      if !found {
        return;
      }
      ghost var s := Ahead();
      var size := TextEnd();
      assert s[1..] == text[pos + 1..];
      if size.None? {
        SkipAll();
        return false, "";
      }
      value := text[pos + 1..pos + 1 + size.value];
      assert s[1..size.value + 1] == value;
    }

    /** Scans for the closing quote, from the opening one. */
    method TextEnd() returns (size: Option<nat>)
      requires Valid() && pos < |text|
      ensures size == TextSize(text[pos + 1..])
    {
      hide TextSize;
      var cur, n := pos + 1, 0;
      ghost var total := TextSize(text[cur..]);
      while cur < |text| && text[cur] != '\"'
        invariant pos < cur <= |text| && cur == pos + 1 + n
        invariant total == More(n, TextSize(text[cur..]))
        decreases |text| - cur
      {
        ghost var s := text[cur..];
        TextStep(s);
        if text[cur] == '\\' {
          n := n + 1;
          cur := cur + 1;
          if cur == |text| {
            return None;
          }
          assert s[2..] == text[cur + 1..];
        } else {
          assert s[1..] == text[cur + 1..];
        }
        n := n + 1;
        cur := cur + 1;
      }
      TextStops(text[cur..]);
      size := if cur == |text| then None else Some(n);
    }

    /** The type of the next value, and the text it spans. */
    method FollowingType() returns (token: Token, value: string)
      requires Valid()
      modifies this
      ensures Valid() && Follow(oracle, old(Ahead())) == Following(token, value, Ahead())
      decreases |text| - pos
    {
      hide ToString, Bare;
      value := "";
      var some := Current();
      if !some {
        return End, "";
      }
      if text[pos] == ',' {
        assert Ahead()[1..] == text[pos + 1..];
        pos := pos + 1;
        some := Current();
        if !some {
          return End, "";
        }
        if text[pos] == ',' || text[pos] == '}' || text[pos] == ']' {
          SkipAll();
          return End, "";
        }
        token, value := FollowingType();
        return;
      }
      if text[pos] == '{' {
        return Obj, "";
      }
      if text[pos] == '[' {
        return Arr, "";
      }
      if text[pos] == '}' || text[pos] == ']' {
        SkipAll();
        return End, "";
      }
      if text[pos] == '\"' {
        var found;
        found, value := JumpToString();
        TrimTwice(old(Ahead()));
        ToStringRest(Trim(old(Ahead())));
        if !found {
          return End, "";
        }
        return if oracle.isDate(value) then DateText else Str, value;
      }
      token, value := BareType();
    }

    /** A word or a number. */
    method BareType() returns (token: Token, value: string)
      requires Valid() && pos < |text|
      modifies this
      ensures Valid() && Bare(oracle, old(Ahead())) == Following(token, value, Ahead())
    {
      hide TrimRight, SameLetters;
      ghost var s := Ahead();
      var size := 1;
      assert s[1..] == text[pos + 1..];
      while pos + size < |text| && text[pos + size] != ',' && text[pos + size] != '}' && text[pos + size] != ']'
        invariant pos == old(pos) && pos + size <= |text|
        invariant 1 + TokenSize(s[1..]) == size + TokenSize(text[pos + size..])
      {
        assert text[pos + size..][1..] == text[pos + size + 1..];
        size := size + 1;
      }
      assert TokenSize(text[pos + size..]) == 0;
      value := TrimRight(text[pos..pos + size]);
      assert s[..size] == text[pos..pos + size];
      if SameLetters(value, "true") {
        return Truth(true), value;
      } else if SameLetters(value, "null") {
        return Nil, value;
      } else if SameLetters(value, "false") {
        return Truth(false), value;
      } else if oracle.isNumber(value) {
        return Num, value;
      }
      SkipAll();
      return End, "";
    }

    /** The number of elements up to the closing bracket, without moving past blanks. */
    method CountArrayElement() returns (count: nat)
      requires Valid()
      modifies this
      ensures Valid() && count == CountElements(old(Ahead())).count
      ensures Ahead() == if CountElements(old(Ahead())).lost then "" else Trim(old(Ahead()))
    {
      hide CountTurn, Trim;
      ghost var total := CountElements(Ahead());
      var some := Current();
      var cur, t := pos, Tally(0, true, false, 0);
      var turn := CountTurn(text[cur..], t);
      while turn.Go?
        invariant pos <= cur <= |text| && turn == CountTurn(text[cur..], t) && CountFrom(text[cur..], t) == total
        invariant Ahead() == Trim(old(Ahead()))
        decreases |text| - cur
      {
        assert text[cur..][turn.moved..] == text[cur + turn.moved..];
        cur, t := cur + turn.moved, turn.t;
        turn := CountTurn(text[cur..], t);
      }
      count := turn.result.count;
      if turn.result.lost {
        SkipAll();
      }
    }

    // ----- values -------------------------------------------------------------------

    /** The calls made to the writer are its out-parameter. */
    method Next() returns (ok: bool, calls: seq<Call>)
      requires Valid()
      modifies this
      ensures Valid() && ReadNext(oracle, old(Ahead())) == Read(ok, calls, Ahead())
      decreases |text| - pos, 3, 0
    {
      hide Follow, ReadOne;
      ghost var r := Ahead();
      var token, value := FollowingType();
      assert |Ahead()| <= |r|;
      if token == End {
        return false, [];
      }
      ok, calls := One(token, value);
    }

    method One(token: Token, value: string) returns (ok: bool, calls: seq<Call>)
      requires Valid() && Ahead() != "" && token != End && |value| <= |Ahead()|
      requires token in {Nil, Truth(true), Truth(false), Num} ==> value != ""
      modifies this
      ensures Valid() && ReadOne(oracle, Following(token, value, old(Ahead()))) == Read(ok, calls, Ahead())
      decreases |text| - pos, 2, 0
    {
      hide ReadArray, ReadFields;
      ok := true;
      if token == Str {
        Skip(|value| + 2);
        calls := [WriteString(value)];
      } else if token == Num {
        Skip(|value|);
        calls := [WriteNumber(value)];
      } else if token.Truth? {
        Skip(|value|);
        calls := [WriteBoolean(token.b)];
      } else if token == DateText {
        Skip(|value| + 2);
        calls := [WriteDate(value)];
      } else if token == Nil {
        Skip(4);
        calls := [WriteNull];
      } else if token == Arr {
        Skip(1);
        calls := Elements();
      } else {
        Skip(1);
        ok, calls := Fields();
      }
    }

    method Elements() returns (calls: seq<Call>)
      requires Valid()
      modifies this
      ensures Valid() && ReadArray(oracle, old(Ahead())) == Read(true, calls, Ahead())
      decreases |text| - pos, 5, 0
    {
      hide CountElements, ReadNext;
      var count := CountArrayElement();
      ghost var from := Ahead();
      calls := [BeginArray(count)];
      ghost var total := ReadItems(oracle, from, count);
      var left := count;
      assert [BeginArray(count)] + ReadItems(oracle, from, count).calls == [BeginArray(count)] + total.calls;
      while left > 0
        invariant Valid() && |Ahead()| <= |old(Ahead())|
        invariant [BeginArray(count)] + total.calls == calls + ReadItems(oracle, Ahead(), left).calls
        invariant total.rest == ReadItems(oracle, Ahead(), left).rest
      {
        ghost var later := ReadItems(oracle, Ahead(), left);
        var ok, value := Next();
        if !ok {
          value := value + [WriteNull];
        } else {
          assert value + [] == value;
        }
        ghost var others := ReadItems(oracle, Ahead(), left - 1);
        assert later == With(value, others);
        assert calls + (value + others.calls) == calls + value + others.calls;
        calls := calls + value;
        left := left - 1;
      }
      assert calls + [] == calls;
      calls := calls + [EndArray];
      var _ := Current();
      Skip(1);
    }

    /** Property after property; after raw bytes the calls go nowhere. */
    method Fields() returns (ok: bool, calls: seq<Call>)
      requires Valid()
      modifies this
      ensures Valid() && ReadFields(oracle, old(Ahead()), false, false) == Read(ok, calls, Ahead())
      decreases |text| - pos, 1, 0
    {
      hide ReadField, ReadFields;
      ghost var total := ReadFields(oracle, Ahead(), false, false);
      calls := [];
      var started, mute := false, false;
      WithNothing(total);
      FieldsTrim(oracle, Ahead(), false, false);
      var some := Current();
      while some && text[pos] != '}'
        invariant Valid() && some == (pos < |text|) && Ahead() == Trim(Ahead()) && |Ahead()| <= |old(Ahead())|
        invariant total == With(calls, ReadFields(oracle, Ahead(), started, mute))
        decreases |text| - pos
      {
        FieldsUnfold(oracle, Ahead(), started, mute);
        if started {
          if text[pos] != ',' {
            SkipAll();
            return true, calls + Said(mute, [EndObject]);
          }
          assert Ahead()[1..] == text[pos + 1..];
          pos := pos + 1;
          some := Current();
          if !some {
            return true, calls + Said(mute, [EndObject]);
          }
        }
        var done, result, added, started', mute' := OneField(started, mute);
        if done {
          return result, calls + added;
        }
        WithTwice(calls, added, ReadFields(oracle, Ahead(), started', mute'));
        calls, started, mute := calls + added, started', mute';
        FieldsTrim(oracle, Ahead(), started, mute);
        some := Current();
      }
      FieldsUnfold(oracle, Ahead(), started, mute);
      calls := calls + Said(mute, (if started then [] else [BeginObject(None)]) + [EndObject]);
      Skip(1);
      return true, calls;
    }

    /** A name, its colon, and what the value's text decides: the object's type, raw
        bytes, or a property. `done` when the object ends here. */
    method OneField(started: bool, mute: bool)
      returns (done: bool, result: bool, calls: seq<Call>, started': bool, mute': bool)
      requires Valid() && Ahead() != ""
      modifies this
      ensures Valid()
      ensures done ==> ReadField(oracle, old(Ahead()), started, mute) == Read(result, calls, Ahead())
      ensures !done ==> |Ahead()| < |old(Ahead())|
      ensures !done ==>
        ReadField(oracle, old(Ahead()), started, mute) == With(calls, ReadFields(oracle, Ahead(), started', mute'))
      decreases |text| - pos, 0, 0
    {
      hide ReadProperty, ReadFields, ToString, IsTypeKey, IsBinKey;
      done, result, calls, started', mute' := true, started, if started then Said(mute, [EndObject]) else [], started, mute;
      var found, name := JumpToString();
      if !found {
        ToStringRest(old(Ahead()));
        return;
      }
      Skip(|name| + 2);
      var colon := JumpTo(':');
      if !colon {
        return;
      }
      Skip(1);
      var begun: seq<Call> := [];
      if !started {
        var some := Current();
        if !some {
          return;
        }
        if text[pos] == '\"' && (IsTypeKey(name) || IsBinKey(name)) {
          ghost var before := Ahead();
          var value;
          found, value := JumpToString();
          if !found {
            ToStringRest(before);
            return;
          }
          Skip(|value| + 2);
          if IsTypeKey(name) {
            return false, true, Said(mute, [BeginObject(Some(value))]), true, mute;
          }
          return false, true, Said(mute, [WriteByte(value)]), false, true;
        }
        begun := [BeginObject(None)];
      }
      done, calls := Property(name, begun, mute);
      result, started' := true, true;
    }

    method Property(name: string, begun: seq<Call>, mute: bool) returns (done: bool, calls: seq<Call>)
      requires Valid()
      modifies this
      ensures Valid()
      ensures done ==> ReadProperty(oracle, name, old(Ahead()), begun, mute) == Read(true, calls, Ahead())
      ensures !done ==> |Ahead()| <= |old(Ahead())|
      ensures !done ==>
        ReadProperty(oracle, name, old(Ahead()), begun, mute) == With(calls, ReadFields(oracle, Ahead(), true, mute))
      decreases |text| - pos, 6, 0
    {
      hide ReadNext, ReadFields;
      calls := Said(mute, begun + [PropertyName(name)]);
      var ok, value := Next();
      calls := calls + Said(mute, value);
      done := !ok;
      if !ok {
        calls := calls + Said(mute, [WriteNull, EndObject]);
      }
    }
  }

  lemma FieldsTrim(o: Oracle, r: string, started: bool, mute: bool)
    ensures ReadFields(o, Trim(r), started, mute) == ReadFields(o, r, started, mute)
    ensures Trim(Trim(r)) == Trim(r)
  {
    hide ReadField;
    TrimTwice(r);
  }

  lemma {:induction false} TrimTwice(r: string)
    ensures Trim(Trim(r)) == Trim(r)
    decreases |r|
  {
    if r != "" && IsSpace(r[0]) {
      TrimTwice(r[1..]);
    }
  }

  lemma FieldsUnfold(o: Oracle, s: string, started: bool, mute: bool)
    requires Trim(s) == s
    ensures s == "" || s[0] == '}' ==>
      ReadFields(o, s, started, mute)
      == Read(true, Said(mute, (if started then [] else [BeginObject(None)]) + [EndObject]), Drop(s, 1))
    ensures s != "" && s[0] != '}' && !started ==> ReadFields(o, s, started, mute) == ReadField(o, s, false, mute)
    ensures s != "" && s[0] != '}' && started ==>
      ReadFields(o, s, started, mute)
      == if s[0] != ',' || Trim(s[1..]) == "" then Read(true, Said(mute, [EndObject]), "")
         else ReadField(o, Trim(s[1..]), true, mute)
  {
    hide ReadField;
  }

  lemma ToStringRest(r: string)
    ensures ToString(r).rest == if ToString(r).found then Trim(r) else ""
  {
    hide TextSize;
  }

  lemma WithNothing(x: Read)
    ensures With([], x) == x
  {
    assert [] + x.calls == x.calls;
  }

  lemma WithTwice(a: seq<Call>, b: seq<Call>, x: Read)
    ensures With(a, With(b, x)) == With(a + b, x)
  {
    assert a + (b + x.calls) == a + b + x.calls;
  }
}
