/**
 * The parameter logic of the property panel: reading a parameter by its dotted path, editing a
 * parameter flat or along a path, deciding whether a parameter is shown (conditions and the
 * KSampler rules) and sorting parameters into the panel's five groups.
 *
 * A node's parameters are an object whose entries are parameter descriptors; a descriptor keeps
 * its current value under `value`. A path such as `loras[1].strength` names nested descriptors:
 * a plain segment descends into the descriptor's `value` object, a segment `name[i]` into element
 * `i` of the descriptor's `value` array.
 */
module PropertyPanel {
  import opened Wrappers
  import opened Json
  import opened Geometry
  import opened FlowStore

  // ---------------------------------------------------------------------------------------
  // Strings

  /** `s.includes(sub)`. */
  predicate Contains(s: string, sub: string)
  {
    exists i :: 0 <= i <= |s| - |sub| && OccursAt(s, sub, i)
  }

  predicate OccursAt(s: string, sub: string, i: int)
  {
    0 <= i && i + |sub| <= |s| && s[i..i + |sub|] == sub
  }

  /** `s.toLowerCase()` on ASCII letters. */
  function LowerAscii(s: string): (r: string)
    ensures |r| == |s|
    ensures forall i :: 0 <= i < |s| ==> r[i] == if 'A' <= s[i] <= 'Z' then (s[i] as int + 32) as char else s[i]
  {
    seq(|s|, i requires 0 <= i < |s| => if 'A' <= s[i] <= 'Z' then (s[i] as int + 32) as char else s[i])
  }

  /** The first position of `c` in `s`. */
  function IndexOf(s: string, c: char): (i: nat)
    requires c in s
    ensures i < |s| && s[i] == c && c !in s[..i]
  {
    if s[0] == c then 0
    else
      var i := 1 + IndexOf(s[1..], c);
      assert s[..i] == [s[0]] + s[1..][..i - 1];
      i
  }

  /** The first position of `c` is the one before which `c` does not occur. */
  lemma IndexOfIs(s: string, c: char, i: nat)
    requires i < |s| && s[i] == c && c !in s[..i]
    ensures IndexOf(s, c) == i
  {
  }

  /** `s.split(sep)`: the pieces between separators, empty pieces included. */
  function Split(s: string, sep: char): (r: seq<string>)
    ensures |r| >= 1
    ensures forall i :: 0 <= i < |r| ==> sep !in r[i]
    decreases |s|
  {
    if sep !in s then [s]
    else
      var i := IndexOf(s, sep);
      [s[..i]] + Split(s[i + 1..], sep)
  }

  /** `parts.join(sep)`. */
  function JoinWith(parts: seq<string>, sep: char): string
    requires |parts| >= 1
  {
    if |parts| == 1 then parts[0] else parts[0] + [sep] + JoinWith(parts[1..], sep)
  }

  /** Joining the pieces of a split gives back the string. */
  lemma {:induction false} SplitJoin(s: string, sep: char)
    ensures JoinWith(Split(s, sep), sep) == s
    decreases |s|
  {
    if sep in s {
      var i := IndexOf(s, sep);
      var rest := Split(s[i + 1..], sep);
      var parts := Split(s, sep);
      assert parts == [s[..i]] + rest;
      assert parts[0] == s[..i] && parts[1..] == rest;
      SplitJoin(s[i + 1..], sep);
      assert JoinWith(parts, sep) == s[..i] + [sep] + s[i + 1..];
      assert s == s[..i] + [sep] + s[i + 1..];
    }
  }

  /** A string with a separator splits into the piece before its first separator and the rest. */
  lemma SplitAt(s: string, sep: char, i: nat)
    requires i < |s| && s[i] == sep && sep !in s[..i]
    ensures Split(s, sep) == [s[..i]] + Split(s[i + 1..], sep)
  {
    IndexOfIs(s, sep, i);
  }

  /** Splitting at a separator written between two strings splits each of them. */
  lemma {:induction false} SplitAround(a: string, sep: char, b: string)
    ensures Split(a + [sep] + b, sep) == Split(a, sep) + Split(b, sep)
    decreases |a|
  {
    if sep !in a {
      SplitAroundFirst(a, sep, b);
    } else {
      var i := IndexOf(a, sep);
      SplitAround(a[i + 1..], sep, b);
      SplitAroundLater(a, sep, b, i);
    }
  }

  /** The case of `SplitAround` where the written separator is the first one. */
  lemma SplitAroundFirst(a: string, sep: char, b: string)
    requires sep !in a
    ensures Split(a + [sep] + b, sep) == Split(a, sep) + Split(b, sep)
  {
    var s := a + [sep] + b;
    assert s[..|a|] == a && s[|a| + 1..] == b;
    SplitAt(s, sep, |a|);
  }

  /** The case of `SplitAround` where `a` holds a separator at `i`, given the claim for what follows it. */
  lemma SplitAroundLater(a: string, sep: char, b: string, i: nat)
    requires i < |a| && a[i] == sep && sep !in a[..i]
    requires Split(a[i + 1..] + [sep] + b, sep) == Split(a[i + 1..], sep) + Split(b, sep)
    ensures Split(a + [sep] + b, sep) == Split(a, sep) + Split(b, sep)
  {
    var s := a + [sep] + b;
    SlicesAround(a, sep, b, i);
    SplitAt(s, sep, i);
    SplitAt(a, sep, i);
    ConsAppend(a[..i], Split(a[i + 1..], sep), Split(b, sep));
  }

  lemma SlicesAround<T>(a: seq<T>, x: T, b: seq<T>, i: nat)
    requires i < |a|
    ensures (a + [x] + b)[..i] == a[..i] && (a + [x] + b)[i] == a[i]
    ensures (a + [x] + b)[i + 1..] == a[i + 1..] + [x] + b
  {
  }

  lemma ConsAppend<T>(x: T, p: seq<T>, q: seq<T>)
    ensures [x] + (p + q) == ([x] + p) + q
  {
  }

  // ---------------------------------------------------------------------------------------
  // Path segments: `part.match(/(\w+)\[(\d+)\]/)`

  datatype Segment = Plain(name: string) | Indexed(name: string, index: nat)

  predicate IsWordChar(c: char)
  {
    'a' <= c <= 'z' || 'A' <= c <= 'Z' || '0' <= c <= '9' || c == '_'
  }

  predicate IsDigit(c: char)
  {
    '0' <= c <= '9'
  }

  /** The end of the run of word characters starting at `i`. */
  function WordEnd(s: string, i: nat): (j: nat)
    requires i <= |s|
    ensures i <= j <= |s|
    ensures forall k :: i <= k < j ==> IsWordChar(s[k])
    ensures j == |s| || !IsWordChar(s[j])
    decreases |s| - i
  {
    if i == |s| || !IsWordChar(s[i]) then i else WordEnd(s, i + 1)
  }

  /** The end of the run of digits starting at `i`. */
  function DigitEnd(s: string, i: nat): (j: nat)
    requires i <= |s|
    ensures i <= j <= |s|
    ensures forall k :: i <= k < j ==> IsDigit(s[k])
    ensures j == |s| || !IsDigit(s[j])
    decreases |s| - i
  {
    if i == |s| || !IsDigit(s[i]) then i else DigitEnd(s, i + 1)
  }

  /** `parseInt` of a string of decimal digits. */
  function DigitsValue(ds: string): nat
    requires forall k :: 0 <= k < |ds| ==> IsDigit(ds[k])
  {
    if ds == [] then 0
    else
      assert IsDigit(ds[|ds| - 1]);
      DigitsValue(ds[..|ds| - 1]) * 10 + (ds[|ds| - 1] as int - '0' as int)
  }

  /** Reading back the digits `String(n)` writes gives `n`. */
  lemma {:induction false} DigitsValueOfNatToString(n: nat)
    ensures forall k :: 0 <= k < |NatToString(n)| ==> IsDigit(NatToString(n)[k])
    ensures DigitsValue(NatToString(n)) == n
    decreases n
  {
    var c := '0' + (n % 10) as char;
    if n >= 10 {
      var a := NatToString(n / 10);
      DigitsValueOfNatToString(n / 10);
      assert NatToString(n) == a + [c];
      DigitsValueSnoc(a, c);
    }
  }

  /** One more digit at the end multiplies the value by ten and adds the digit. */
  lemma DigitsValueSnoc(ds: string, c: char)
    requires forall k :: 0 <= k < |ds| ==> IsDigit(ds[k])
    requires IsDigit(c)
    ensures forall k :: 0 <= k < |ds + [c]| ==> IsDigit((ds + [c])[k])
    ensures DigitsValue(ds + [c]) == DigitsValue(ds) * 10 + (c as int - '0' as int)
  {
    assert (ds + [c])[..|ds|] == ds;
  }

  /**
   * The regular expression tried at position `i`: a maximal run of word characters, `[`, a
   * maximal run of at least one digit, `]`. Backtracking cannot help either run, since the
   * character after a shorter run is still a word character or a digit.
   */
  function MatchAt(s: string, i: nat): Option<Segment>
    requires i <= |s|
  {
    var j := WordEnd(s, i);
    if j == i || j == |s| || s[j] != '[' then None
    else
      var k := DigitEnd(s, j + 1);
      if k == j + 1 || k == |s| || s[k] != ']' then None
      else Some(Indexed(s[i..j], DigitsValue(s[j + 1..k])))
  }

  /** The leftmost match at or after `i`. */
  function FindMatch(s: string, i: nat): Option<Segment>
    requires i <= |s|
    decreases |s| - i
  {
    if i == |s| then None
    else match MatchAt(s, i)
      case Some(seg) => Some(seg)
      case None => FindMatch(s, i + 1)
  }

  /** What a path part means: an array element when the pattern matches, a property otherwise. */
  function ParseSegment(part: string): Segment
  {
    FindMatch(part, 0).GetOr(Plain(part))
  }

  /** A part without `[` is a plain property name. */
  lemma PlainPart(part: string)
    requires '[' !in part
    ensures ParseSegment(part) == Plain(part)
  {
    NoMatchFrom(part, 0);
  }

  lemma {:induction false} NoMatchFrom(s: string, i: nat)
    requires i <= |s| && '[' !in s
    ensures FindMatch(s, i) == None
    decreases |s| - i
  {
    if i < |s| {
      var j := WordEnd(s, i);
      assert j < |s| ==> s[j] in s;
      NoMatchFrom(s, i + 1);
    }
  }

  /** The pattern matches at `i` when a word run, `[`, a digit run and `]` follow each other there. */
  lemma MatchAtIndexed(s: string, i: nat, j: nat, k: nat)
    requires i < j < k - 1 && k < |s|
    requires forall x :: i <= x < j ==> IsWordChar(s[x])
    requires s[j] == '[' && s[k] == ']'
    requires forall x :: j < x < k ==> IsDigit(s[x])
    ensures MatchAt(s, i) == Some(Indexed(s[i..j], DigitsValue(s[j + 1..k])))
  {
    WordRun(s, i, j);
    DigitRun(s, j + 1, k);
  }

  /** The part `name[i]` the panel writes for an array element is read back as that element. */
  lemma IndexedPart(name: string, n: nat)
    requires name != [] && forall k :: 0 <= k < |name| ==> IsWordChar(name[k])
    ensures ParseSegment(name + "[" + NatToString(n) + "]") == Indexed(name, n)
  {
    var ds := NatToString(n);
    var s := name + "[" + ds + "]";
    var j := |name|;
    var k := |name| + 1 + |ds|;
    Bracketed(name, ds);
    DigitsValueOfNatToString(n);
    MatchAtIndexed(s, 0, j, k);
  }

  /** Where the name, the brackets and the digits sit in `name[digits]`. */
  lemma Bracketed(name: string, ds: string)
    ensures var s := name + "[" + ds + "]";
      && |s| == |name| + |ds| + 2
      && s[..|name|] == name && s[|name|] == '[' && s[|name| + 1..|name| + 1 + |ds|] == ds
      && s[|name| + 1 + |ds|] == ']'
      && (forall x :: 0 <= x < |name| ==> s[x] == name[x])
      && (forall x :: |name| < x < |name| + 1 + |ds| ==> s[x] == ds[x - |name| - 1])
  {
    var s := name + "[" + ds + "]";
    assert s[..|name|] == name;
    assert s[|name| + 1..|name| + 1 + |ds|] == ds;
  }

  lemma {:induction false} WordRun(s: string, i: nat, j: nat)
    requires i <= j < |s| && !IsWordChar(s[j])
    requires forall k :: i <= k < j ==> IsWordChar(s[k])
    ensures WordEnd(s, i) == j
    decreases j - i
  {
    if i < j {
      WordRun(s, i + 1, j);
    }
  }

  lemma {:induction false} DigitRun(s: string, i: nat, j: nat)
    requires i <= j < |s| && !IsDigit(s[j])
    requires forall k :: i <= k < j ==> IsDigit(s[k])
    ensures DigitEnd(s, i) == j
    decreases j - i
  {
    if i < j {
      DigitRun(s, i + 1, j);
    }
  }

  /** The segments of a path: `path.split('.')`, each part matched against the pattern. */
  function ParseAll(parts: seq<string>): (r: seq<Segment>)
    ensures |r| == |parts|
    ensures forall i :: 0 <= i < |parts| ==> r[i] == ParseSegment(parts[i])
  {
    seq(|parts|, i requires 0 <= i < |parts| => ParseSegment(parts[i]))
  }

  function Segments(path: string): (r: seq<Segment>)
    ensures |r| >= 1
  {
    ParseAll(Split(path, '.'))
  }

  /** The path of a parameter inside the container at `path`. */
  lemma SegmentsOfChild(path: string, paramName: string)
    requires '.' !in paramName && '[' !in paramName
    ensures Segments(path + "." + paramName) == Segments(path) + [Plain(paramName)]
  {
    SplitAround(path, '.', paramName);
    assert path + "." + paramName == path + ['.'] + paramName;
    assert Split(paramName, '.') == [paramName];
    PlainPart(paramName);
  }

  // ---------------------------------------------------------------------------------------
  // getParamValue

  /** The outcome of a read: a value (`None` for `undefined`), or a `TypeError`. */
  datatype Read = Value(v: Option<Json>) | TypeError

  /**
   * The value `getParamValue` reaches from `value` along `parts`: a missing descriptor, or a
   * descriptor whose `value` is not an array under `name[i]`, ends the walk with `undefined`;
   * reading a property of `undefined` or `null` throws.
   */
  function ParamValue(value: Option<Json>, parts: seq<Segment>): Read
    decreases |parts|
  {
    if parts == [] then Value(value)
    else if IsNullish(value) then TypeError
    else
      var entry := Member(value, parts[0].name);
      if !Truthy(entry) then Value(None)
      else
        match parts[0]
        case Plain(_) => ParamValue(Member(entry, "value"), parts[1..])
        case Indexed(_, index) =>
          var items := Member(entry, "value");
          if !IsArray(items) then Value(None) else ParamValue(Elem(items, index), parts[1..])
  }

  /** A walk that meets a missing descriptor stops with `undefined`, whatever the rest of the path. */
  lemma MissingSegmentIsUndefined(value: Option<Json>, parts: seq<Segment>)
    requires parts != [] && !IsNullish(value) && !Truthy(Member(value, parts[0].name))
    ensures ParamValue(value, parts) == Value(None)
  {
  }

  /** `getParamValue(params, path)`: walks the parts of the path, reassigning `value`. */
  method GetParamValue(params: Option<Json>, path: string) returns (r: Read)
    ensures r == ParamValue(params, Segments(path))
  {
    var parts := Split(path, '.');
    var value := params;
    var i := 0;
    while i < |parts|
      invariant 0 <= i <= |parts|
      invariant ParamValue(params, Segments(path)) == ParamValue(value, ParseAll(parts)[i..])
    {
      var segs := ParseAll(parts)[i..];
      assert segs[0] == ParseSegment(parts[i]) && segs[1..] == ParseAll(parts)[i + 1..];
      if IsNullish(value) {
        return TypeError;
      }
      var seg := ParseSegment(parts[i]);
      var entry := Member(value, seg.name);
      if !Truthy(entry) {
        return Value(None);
      }
      match seg {
        case Plain(_) =>
          value := Member(entry, "value");
        case Indexed(_, index) =>
          var items := Member(entry, "value");
          if !IsArray(items) {
            return Value(None);
          }
          value := Elem(items, index);
      }
      i := i + 1;
    }
    return Value(value);
  }

  // ---------------------------------------------------------------------------------------
  // handlePropertyChange

  /** The outcome of an edit: the new parameters, or a `TypeError` (or a write the model cannot represent). */
  datatype Written = Written(fields: seq<Field>) | Fails

  /** `{ ...descriptor, value }` stored under `paramName`. */
  function SetParam(fs: seq<Field>, paramName: string, v: Json): (r: seq<Field>)
    ensures forall k :: k != paramName ==> Get(r, k) == Get(fs, k)
    ensures Member(Member(Some(JObj(r)), paramName), "value") == Defined(Some(v))
    ensures forall k :: k != "value" ==>
              Member(Member(Some(JObj(r)), paramName), k) == Member(Some(JObj(SpreadFields(Member(Some(JObj(fs)), paramName)))), k)
  {
    var descriptor := Put(SpreadFields(Member(Some(JObj(fs)), paramName)), "value", v);
    Put(fs, paramName, JObj(descriptor))
  }

  /** The container a segment creates when it is missing: `{}` for a plain segment, `[]` for `name[i]`. */
  function EmptyContainer(seg: Segment): Json
  {
    if seg.Plain? then JObj([]) else JArr([])
  }

  /** `current[name]`, or the descriptor `{ value: <empty container> }` written when it is falsy. */
  function EntryOf(fs: seq<Field>, seg: Segment): Json
  {
    var found := Member(Some(JObj(fs)), seg.name);
    if Truthy(found) then found.value else JObj([Field("value", EmptyContainer(seg))])
  }

  /** `entry.value`, or the empty container written when it is falsy. */
  function ContainerOf(entry: Json, seg: Segment): Json
  {
    var held := Member(Some(entry), "value");
    if Truthy(held) then held.value else EmptyContainer(seg)
  }

  /** `container[index]` on an array or an object. */
  function SlotGet(c: Json, index: nat): Option<Json>
  {
    if c.JArr? then Elem(Some(c), index) else Member(Some(c), NatToString(index))
  }

  /** `container[index]`, or the `{}` written when it is falsy. */
  function SlotOf(c: Json, index: nat): Json
  {
    var slot := SlotGet(c, index);
    if Truthy(slot) then slot.value else JObj([])
  }

  /** `a[index] = x` on an array: past the end, the array grows with holes. */
  function SetIndex(items: seq<Json>, index: nat, x: Json): (r: seq<Json>)
    ensures |r| == if index < |items| then |items| else index + 1
    ensures r[index] == x
    ensures forall i :: 0 <= i < |r| && i != index ==> r[i] == if i < |items| then items[i] else JUndef
  {
    if index < |items| then items[index := x]
    else items + seq(index - |items|, _ => JUndef) + [x]
  }

  /** `container[index] = x` on an array or an object. */
  function SlotSet(c: Json, index: nat, x: Json): Json
  {
    if c.JArr? then JArr(SetIndex(c.items, index, x))
    else if c.JObj? then JObj(Put(c.fields, NatToString(index), x))
    else c
  }

  /**
   * The object a segment descends into, given the segment's container `c`: the container itself
   * for a plain segment, its element `index` for `name[i]`. Writing a property on a primitive
   * throws in the module's strict mode and a named property on an array cannot be represented
   * here: both give `None`.
   */
  function Inner(c: Json, seg: Segment): Option<seq<Field>>
  {
    match seg
    case Plain(_) => if c.JObj? then Some(c.fields) else None
    case Indexed(_, index) =>
      if (c.JArr? || c.JObj?) && SlotOf(c, index).JObj? then Some(SlotOf(c, index).fields) else None
  }

  /** The container `c` with the object the segment descends into replaced by `inner`. */
  function Rebuild(c: Json, seg: Segment, inner: seq<Field>): Json
  {
    if seg.Plain? then JObj(inner) else SlotSet(c, seg.index, JObj(inner))
  }

  /**
   * `updateNestedParams` from the container `fs` along `parts`: each segment fetches or creates
   * its descriptor and container, and the last one writes `{ ...descriptor, value }` under
   * `paramName`; the descriptors on the way are rebuilt around the changed container.
   */
  function Write(fs: seq<Field>, parts: seq<Segment>, paramName: string, v: Json): (r: Written)
    requires parts != []
    ensures r.Written? ==> forall k :: k != parts[0].name ==> Get(r.fields, k) == Get(fs, k)
    decreases |parts|
  {
    var seg := parts[0];
    var entry := EntryOf(fs, seg);
    var c := ContainerOf(entry, seg);
    if !entry.JObj? || Inner(c, seg).None? then Fails
    else
      var f := Inner(c, seg).value;
      var inner := if |parts| == 1 then Written(SetParam(f, paramName, v)) else Write(f, parts[1..], paramName, v);
      if inner.Fails? then Fails
      else Written(Put(fs, seg.name, JObj(Put(entry.fields, "value", Rebuild(c, seg, inner.fields)))))
  }

  /**
   * The path leads through containers the read walks the same way: every descriptor met is an
   * object, a plain segment's container an object, a `name[i]` segment's container an array and
   * its element an object (each counting as such when it is missing, because it is then created
   * so).
   */
  predicate ShapedFor(fs: seq<Field>, parts: seq<Segment>)
    decreases |parts|
  {
    parts == [] ||
      var seg := parts[0];
      var entry := EntryOf(fs, seg);
      var c := ContainerOf(entry, seg);
      && entry.JObj?
      && Inner(c, seg).Some?
      && (seg.Indexed? ==> c.JArr?)
      && ShapedFor(Inner(c, seg).value, parts[1..])
  }

  /** Missing containers are created with the shape the read expects. */
  lemma {:induction false} EmptyIsShaped(parts: seq<Segment>)
    ensures ShapedFor([], parts)
    decreases |parts|
  {
    if parts != [] {
      var seg := parts[0];
      assert EntryOf([], seg) == JObj([Field("value", EmptyContainer(seg))]);
      assert ContainerOf(EntryOf([], seg), seg) == EmptyContainer(seg) by {
        ReadField([Field("value", EmptyContainer(seg))], 0);
      }
      match seg {
        case Plain(_) =>
        case Indexed(_, index) =>
          assert SlotOf(JArr([]), index) == JObj([]);
      }
      EmptyIsShaped(parts[1..]);
    }
  }

  /** One plain step of a read. */
  lemma ReadPlainStep(value: Option<Json>, name: string, rest: seq<Segment>)
    requires !IsNullish(value) && Truthy(Member(value, name))
    ensures ParamValue(value, [Plain(name)] + rest) == ParamValue(Member(Member(value, name), "value"), rest)
  {
    var parts := [Plain(name)] + rest;
    assert parts[0] == Plain(name) && parts[1..] == rest;
  }

  /** One `name[i]` step of a read through an array. */
  lemma ReadIndexedStep(value: Option<Json>, name: string, index: nat, rest: seq<Segment>)
    requires !IsNullish(value) && Truthy(Member(value, name)) && IsArray(Member(Member(value, name), "value"))
    ensures ParamValue(value, [Indexed(name, index)] + rest) == ParamValue(Elem(Member(Member(value, name), "value"), index), rest)
  {
    var parts := [Indexed(name, index)] + rest;
    assert parts[0] == Indexed(name, index) && parts[1..] == rest;
  }

  /** A descriptor `{ ...e, value: next }` stored under `name` is what a read of `name` meets. */
  lemma RebuiltEntry(fs: seq<Field>, name: string, e: seq<Field>, next: Json)
    ensures Member(Some(JObj(Put(fs, name, JObj(Put(e, "value", next))))), name) == Some(JObj(Put(e, "value", next)))
    ensures next != JUndef ==> Member(Some(JObj(Put(e, "value", next))), "value") == Some(next)
  {
  }

  /** Reading through a rebuilt descriptor reaches the object put into it. */
  lemma ReadRebuilt(fs: seq<Field>, e: seq<Field>, c: Json, seg: Segment, inner: seq<Field>, rest: seq<Segment>)
    requires seg.Indexed? ==> c.JArr?
    ensures ParamValue(Some(JObj(Put(fs, seg.name, JObj(Put(e, "value", Rebuild(c, seg, inner)))))), [seg] + rest)
              == ParamValue(Some(JObj(inner)), rest)
  {
    var next := Rebuild(c, seg, inner);
    var value := Some(JObj(Put(fs, seg.name, JObj(Put(e, "value", next)))));
    RebuiltEntry(fs, seg.name, e, next);
    match seg {
      case Plain(name) =>
        ReadPlainStep(value, name, rest);
      case Indexed(name, index) =>
        assert Elem(Some(next), index) == Some(JObj(inner));
        ReadIndexedStep(value, name, index, rest);
    }
  }

  /** Reading the descriptor stored under `paramName` gives its `value`. */
  lemma ReadDescriptor(fs: seq<Field>, paramName: string, d: seq<Field>)
    ensures ParamValue(Some(JObj(Put(fs, paramName, JObj(d)))), [Plain(paramName)]) == Value(Member(Some(JObj(d)), "value"))
  {
    var r := Put(fs, paramName, JObj(d));
    var parts := [Plain(paramName)];
    assert parts[1..] == [];
    assert Get(r, paramName) == Some(JObj(d));
    assert Member(Some(JObj(r)), paramName) == Some(JObj(d));
    assert parts[0].name == paramName;
    assert ParamValue(Member(Some(JObj(d)), "value"), []) == Value(Member(Some(JObj(d)), "value"));
  }

  /** Reading `paramName` right after `SetParam` yields the value written. */
  lemma ReadSetParam(fs: seq<Field>, paramName: string, v: Json)
    ensures ParamValue(Some(JObj(SetParam(fs, paramName, v))), [Plain(paramName)]) == Value(Defined(Some(v)))
  {
    var d := Put(SpreadFields(Member(Some(JObj(fs)), paramName)), "value", v);
    ReadDescriptor(fs, paramName, d);
  }

  /** The write into the object the first segment descends into. */
  function RestWrite(fs: seq<Field>, parts: seq<Segment>, paramName: string, v: Json): Written
    requires parts != [] && ShapedFor(fs, parts)
  {
    var f := Inner(ContainerOf(EntryOf(fs, parts[0]), parts[0]), parts[0]).value;
    if |parts| == 1 then Written(SetParam(f, paramName, v)) else Write(f, parts[1..], paramName, v)
  }

  /** A write whose rest succeeds rebuilds the first descriptor around the rest's result. */
  lemma WriteUnfolds(fs: seq<Field>, parts: seq<Segment>, paramName: string, v: Json)
    requires parts != [] && ShapedFor(fs, parts) && RestWrite(fs, parts, paramName, v).Written?
    ensures var entry := EntryOf(fs, parts[0]);
      Write(fs, parts, paramName, v) == Written(Put(fs, parts[0].name, JObj(Put(entry.fields, "value",
        Rebuild(ContainerOf(entry, parts[0]), parts[0], RestWrite(fs, parts, paramName, v).fields)))))
  {
  }

  /** When the rest of the write reads back `v`, so does the whole write. */
  lemma WriteStepThenRead(fs: seq<Field>, parts: seq<Segment>, paramName: string, v: Json)
    requires parts != [] && ShapedFor(fs, parts)
    requires RestWrite(fs, parts, paramName, v).Written?
    requires ParamValue(Some(JObj(RestWrite(fs, parts, paramName, v).fields)), parts[1..] + [Plain(paramName)]) == Value(Defined(Some(v)))
    ensures Write(fs, parts, paramName, v).Written?
    ensures ParamValue(Some(JObj(Write(fs, parts, paramName, v).fields)), parts + [Plain(paramName)]) == Value(Defined(Some(v)))
  {
    var seg := parts[0];
    var entry := EntryOf(fs, seg);
    var c := ContainerOf(entry, seg);
    var inner := RestWrite(fs, parts, paramName, v).fields;
    WriteUnfolds(fs, parts, paramName, v);
    var rest := parts[1..] + [Plain(paramName)];
    HeadAndRest(parts, Plain(paramName));
    ReadRebuilt(fs, entry.fields, c, seg, inner, rest);
  }

  lemma HeadAndRest(parts: seq<Segment>, last: Segment)
    requires parts != []
    ensures parts + [last] == [parts[0]] + (parts[1..] + [last])
  {
  }

  /** Writing `v` along a path, then reading `path.paramName`, yields `v`. */
  lemma {:induction false} WriteThenRead(fs: seq<Field>, parts: seq<Segment>, paramName: string, v: Json)
    requires parts != [] && ShapedFor(fs, parts)
    ensures Write(fs, parts, paramName, v).Written?
    ensures ParamValue(Some(JObj(Write(fs, parts, paramName, v).fields)), parts + [Plain(paramName)]) == Value(Defined(Some(v)))
    decreases |parts|
  {
    var f := Inner(ContainerOf(EntryOf(fs, parts[0]), parts[0]), parts[0]).value;
    if |parts| == 1 {
      assert parts[1..] + [Plain(paramName)] == [Plain(paramName)];
      ReadSetParam(f, paramName, v);
    } else {
      WriteThenRead(f, parts[1..], paramName, v);
    }
    WriteStepThenRead(fs, parts, paramName, v);
  }

  /** `updateNestedParams(data.params, path.split('.'), paramName, value)`, starting from `{ ...params }`. */
  function UpdateNestedParams(params: Option<Json>, path: string, paramName: string, v: Json): Written
  {
    Write(SpreadFields(params), Segments(path), paramName, v)
  }

  /**
   * The flat edit `{ ...params, [paramName]: { ...params[paramName], value } }`; reading
   * `params[paramName]` throws when `params` is missing.
   */
  function FlatUpdate(params: Option<Json>, paramName: string, v: Json): (r: Written)
    ensures IsNullish(params) <==> r.Fails?
  {
    if IsNullish(params) then Fails else Written(SetParam(SpreadFields(params), paramName, v))
  }

  /** A flat edit sets the parameter's `value`, keeps its other fields and leaves every other parameter alone. */
  lemma FlatUpdateChangesOnlyValue(params: Option<Json>, paramName: string, v: Json)
    requires params.Some? && params.value.JObj?
    ensures var r := FlatUpdate(params, paramName, v);
      && r.Written?
      && (forall k :: k != paramName ==> Get(r.fields, k) == Get(params.value.fields, k))
      && Member(Member(Some(JObj(r.fields)), paramName), "value") == Defined(Some(v))
      && (forall k :: k != "value" && Member(params, paramName).Some? && Member(params, paramName).value.JObj? ==>
            Member(Member(Some(JObj(r.fields)), paramName), k) == Member(Member(params, paramName), k))
  {
  }

  /** `handlePropertyChange(paramName, value, path)`: a nested edit when `path` is non-empty, a flat one otherwise. */
  function PropertyChange(params: Option<Json>, paramName: string, v: Json, path: string): Written
  {
    if path != "" then UpdateNestedParams(params, path, paramName, v) else FlatUpdate(params, paramName, v)
  }

  /**
   * After an edit along a path, the parameter reads back at `path.paramName` with the new value;
   * missing descriptors and containers along the way are created.
   */
  lemma NestedChangeThenRead(params: Option<Json>, path: string, paramName: string, v: Json)
    requires path != "" && '.' !in paramName && '[' !in paramName
    requires ShapedFor(SpreadFields(params), Segments(path))
    ensures PropertyChange(params, paramName, v, path).Written?
    ensures ParamValue(Some(JObj(PropertyChange(params, paramName, v, path).fields)), Segments(path + "." + paramName))
              == Value(Defined(Some(v)))
  {
    WriteThenRead(SpreadFields(params), Segments(path), paramName, v);
    SegmentsOfChild(path, paramName);
  }

  /** On parameters without the containers a path needs, the edit creates all of them. */
  lemma NestedChangeCreatesPath(path: string, paramName: string, v: Json)
    requires path != "" && '.' !in paramName && '[' !in paramName
    ensures PropertyChange(Some(JObj([])), paramName, v, path).Written?
    ensures ParamValue(Some(JObj(PropertyChange(Some(JObj([])), paramName, v, path).fields)), Segments(path + "." + paramName))
              == Value(Defined(Some(v)))
  {
    EmptyIsShaped(Segments(path));
    NestedChangeThenRead(Some(JObj([])), path, paramName, v);
  }

  /**
   * `handlePropertyChange` on the selected node: computes the new parameters and dispatches
   * `updateNode({ id, data: { ...data, params } })`; a thrown `TypeError` leaves the store as it was.
   */
  method HandlePropertyChange(store: Store, node: Node, paramName: string, v: Json, path: string)
    modifies store
    ensures var r := PropertyChange(Member(Some(JObj(node.data)), "params"), paramName, v, path);
      && (r.Fails? ==> store.state == old(store.state))
      && (r.Written? ==> store.state == Reduce(old(store.state),
            UpdateNode(NodePatch(node.id, None, None, Some(Put(node.data, "params", JObj(r.fields)))))))
  {
    var r := PropertyChange(Member(Some(JObj(node.data)), "params"), paramName, v, path);
    if r.Written? {
      store.Dispatch(UpdateNode(NodePatch(node.id, None, None, Some(Put(node.data, "params", JObj(r.fields))))));
    }
  }

  // ---------------------------------------------------------------------------------------
  // evaluateCondition

  /** The outcome of a condition: a boolean, or a `TypeError`. */
  datatype Eval = Holds(b: bool) | Throws

  /** `every` over results already computed in order: the first throw or `false` decides. */
  function EveryOf(rs: seq<Eval>): (r: Eval)
    ensures r == Holds(true) <==> forall i :: 0 <= i < |rs| ==> rs[i] == Holds(true)
  {
    if rs == [] then Holds(true)
    else if rs[0].Throws? then Throws
    else if !rs[0].b then Holds(false)
    else
      var r := EveryOf(rs[1..]);
      assert forall i :: 1 <= i < |rs| ==> rs[i] == rs[1..][i - 1];
      r
  }

  /** `some` over results already computed in order: the first throw or `true` decides. */
  function SomeOf(rs: seq<Eval>): (r: Eval)
    ensures r == Holds(false) <==> forall i :: 0 <= i < |rs| ==> rs[i] == Holds(false)
    ensures (forall i :: 0 <= i < |rs| ==> rs[i].Holds?) ==>
              (r == Holds(true) <==> exists i :: 0 <= i < |rs| && rs[i] == Holds(true))
  {
    if rs == [] then Holds(false)
    else if rs[0].Throws? then Throws
    else if rs[0].b then Holds(true)
    else
      var r := SomeOf(rs[1..]);
      assert forall i :: 1 <= i < |rs| ==> rs[i] == rs[1..][i - 1];
      r
  }

  /** `Number(a) > Number(b)`: false when either is `NaN`. */
  predicate Greater(a: Num, b: Num)
  {
    a.Num? && b.Num? && a.v > b.v
  }

  predicate AtLeast(a: Num, b: Num)
  {
    a.Num? && b.Num? && a.v >= b.v
  }

  /** `paramValue.includes(value)` on an array (holes read as `undefined`), else `String(a).includes(String(b))`. */
  predicate Includes(pv: Option<Json>, v: Option<Json>, str: Option<Json> -> string)
  {
    if IsArray(pv) then exists i :: 0 <= i < |pv.value.items| && StrictEquals(Defined(Some(pv.value.items[i])), v)
    else Contains(str(pv), str(v))
  }

  /** The operator `switch` of `evaluateCondition`; `str` is `String()` and `num` is `Number()`. */
  predicate Compare(op: Option<Json>, pv: Option<Json>, v: Option<Json>, str: Option<Json> -> string, num: Option<Json> -> Num)
  {
    if op == Some(JStr("equals")) then StrictEquals(pv, v)
    else if op == Some(JStr("not_equals")) then !StrictEquals(pv, v)
    else if op == Some(JStr("includes")) then Includes(pv, v, str)
    else if op == Some(JStr("not_includes")) then !Includes(pv, v, str)
    else if op == Some(JStr("greater_than")) then Greater(num(pv), num(v))
    else if op == Some(JStr("less_than")) then Greater(num(v), num(pv))
    else if op == Some(JStr("greater_or_equal")) then AtLeast(num(pv), num(v))
    else if op == Some(JStr("less_or_equal")) then AtLeast(num(v), num(pv))
    else if op == Some(JStr("is_true")) then Truthy(pv)
    else if op == Some(JStr("is_false")) then !Truthy(pv)
    else if op == Some(JStr("exists")) then !IsNullish(pv)
    else if op == Some(JStr("not_exists")) then IsNullish(pv)
    else true
  }

  const Operators := ["equals", "not_equals", "includes", "not_includes", "greater_than", "less_than",
                      "greater_or_equal", "less_or_equal", "is_true", "is_false", "exists", "not_exists"]

  /** The paired operators give opposite answers. */
  lemma OppositeOperators(pv: Option<Json>, v: Option<Json>, str: Option<Json> -> string, num: Option<Json> -> Num)
    ensures Compare(Some(JStr("equals")), pv, v, str, num) == !Compare(Some(JStr("not_equals")), pv, v, str, num)
    ensures Compare(Some(JStr("includes")), pv, v, str, num) == !Compare(Some(JStr("not_includes")), pv, v, str, num)
    ensures Compare(Some(JStr("is_true")), pv, v, str, num) == !Compare(Some(JStr("is_false")), pv, v, str, num)
    ensures Compare(Some(JStr("exists")), pv, v, str, num) == !Compare(Some(JStr("not_exists")), pv, v, str, num)
  {
  }

  /** An operator the `switch` does not know, or none at all, lets the condition pass. */
  lemma UnknownOperatorPasses(pv: Option<Json>, v: Option<Json>, str: Option<Json> -> string, num: Option<Json> -> Num, other: string)
    requires other !in Operators
    ensures Compare(Some(JStr(other)), pv, v, str, num)
    ensures Compare(None, pv, v, str, num)
  {
  }

  /** With a `NaN` operand every numeric comparison fails. */
  lemma NaNComparisonsFail(pv: Option<Json>, v: Option<Json>, str: Option<Json> -> string, num: Option<Json> -> Num)
    requires num(pv).NaN? || num(v).NaN?
    ensures !Compare(Some(JStr("greater_than")), pv, v, str, num) && !Compare(Some(JStr("less_than")), pv, v, str, num)
    ensures !Compare(Some(JStr("greater_or_equal")), pv, v, str, num) && !Compare(Some(JStr("less_or_equal")), pv, v, str, num)
  {
  }

  /**
   * `evaluateCondition(condition, params)`: an `AND` holds when every sub-condition does, an
   * `OR` when some does (holes are skipped), and a leaf compares the value at its `param` path
   * with its `value` by its `operator`. `null` conditions, a missing `conditions` array and a
   * non-string `param` throw.
   */
  function EvaluateCondition(c: Json, params: Option<Json>, str: Option<Json> -> string, num: Option<Json> -> Num): Eval
    decreases c, 1
  {
    if c == JNull || c == JUndef then Throws
    else
      var kind := Member(Some(c), "type");
      if kind == Some(JStr("AND")) || kind == Some(JStr("OR")) then
        var conds := Member(Some(c), "conditions");
        if !IsArray(conds) then Throws
        else
          var isAnd := kind == Some(JStr("AND"));
          var rs := Results(c, conds.value.items, isAnd, params, str, num);
          if isAnd then EveryOf(rs) else SomeOf(rs)
      else
        var param := Member(Some(c), "param");
        if !(param.Some? && param.value.JStr?) then Throws
        else
          match ParamValue(params, Segments(param.value.s))
          case TypeError => Throws
          case Value(pv) => Holds(Compare(Member(Some(c), "operator"), pv, Member(Some(c), "value"), str, num))
  }

  /** The results of the sub-conditions in order; a hole counts as `neutral`, the value that does not decide. */
  function Results(c: Json, items: seq<Json>, neutral: bool, params: Option<Json>,
                   str: Option<Json> -> string, num: Option<Json> -> Num): (rs: seq<Eval>)
    requires IsArray(Member(Some(c), "conditions")) && items == Member(Some(c), "conditions").value.items
    ensures |rs| == |items|
    ensures forall i :: 0 <= i < |items| ==>
              rs[i] == if items[i] == JUndef then Holds(neutral) else EvaluateCondition(items[i], params, str, num)
    decreases c, 0
  {
    seq(|items|, i requires 0 <= i < |items| =>
      if items[i] == JUndef then Holds(neutral) else EvaluateCondition(items[i], params, str, num))
  }

  /** An `AND` holds exactly when every sub-condition that is not a hole holds; an empty `AND` holds. */
  lemma AndIffEvery(c: Json, params: Option<Json>, str: Option<Json> -> string, num: Option<Json> -> Num)
    requires c.JObj? && Member(Some(c), "type") == Some(JStr("AND")) && IsArray(Member(Some(c), "conditions"))
    ensures var items := Member(Some(c), "conditions").value.items;
      EvaluateCondition(c, params, str, num) == Holds(true) <==>
        forall i :: 0 <= i < |items| && items[i] != JUndef ==> EvaluateCondition(items[i], params, str, num) == Holds(true)
  {
    var items := Member(Some(c), "conditions").value.items;
    assert EvaluateCondition(c, params, str, num) == EveryOf(Results(c, items, true, params, str, num));
  }

  /** An `OR` fails exactly when every sub-condition that is not a hole fails, so an empty `OR` fails. */
  lemma OrFailsIffAllFail(c: Json, params: Option<Json>, str: Option<Json> -> string, num: Option<Json> -> Num)
    requires c.JObj? && Member(Some(c), "type") == Some(JStr("OR")) && IsArray(Member(Some(c), "conditions"))
    ensures var items := Member(Some(c), "conditions").value.items;
      EvaluateCondition(c, params, str, num) == Holds(false) <==>
        forall i :: 0 <= i < |items| && items[i] != JUndef ==> EvaluateCondition(items[i], params, str, num) == Holds(false)
  {
    var items := Member(Some(c), "conditions").value.items;
    assert EvaluateCondition(c, params, str, num) == SomeOf(Results(c, items, false, params, str, num));
  }

  /** When no sub-condition of an `OR` throws, it holds exactly when one of them holds. */
  lemma OrHoldsIffSome(c: Json, params: Option<Json>, str: Option<Json> -> string, num: Option<Json> -> Num)
    requires c.JObj? && Member(Some(c), "type") == Some(JStr("OR")) && IsArray(Member(Some(c), "conditions"))
    requires var items := Member(Some(c), "conditions").value.items;
      forall i :: 0 <= i < |items| && items[i] != JUndef ==> EvaluateCondition(items[i], params, str, num).Holds?
    ensures var items := Member(Some(c), "conditions").value.items;
      EvaluateCondition(c, params, str, num) == Holds(true) <==>
        exists i :: 0 <= i < |items| && items[i] != JUndef && EvaluateCondition(items[i], params, str, num) == Holds(true)
  {
    var items := Member(Some(c), "conditions").value.items;
    var rs := Results(c, items, false, params, str, num);
    assert EvaluateCondition(c, params, str, num) == SomeOf(rs);
    assert forall i :: 0 <= i < |rs| ==> rs[i].Holds?;
  }

  // ---------------------------------------------------------------------------------------
  // shouldShowParam

  /**
   * `shouldShowParam(paramName)`: a truthy `condition` on the descriptor decides alone; on
   * KSampler nodes `noise_offset` is hidden when `add_noise` is off and `eta` unless the
   * scheduler is `ddim` or `dpm_solver_++`; everything else is shown.
   */
  function ShouldShowParam(params: Option<Json>, nodeType: string, paramName: string,
                           str: Option<Json> -> string, num: Option<Json> -> Num): Eval
  {
    if IsNullish(params) then Throws
    else
      var condition := Member(Member(params, paramName), "condition");
      if Truthy(condition) then EvaluateCondition(condition.value, params, str, num)
      else if Contains(nodeType, "KSampler") && paramName == "noise_offset"
              && Member(Member(params, "add_noise"), "value") == Some(JBool(false)) then Holds(false)
      else if Contains(nodeType, "KSampler") && paramName == "eta"
              && Member(Member(params, "scheduler"), "value") !in {Some(JStr("ddim")), Some(JStr("dpm_solver_++"))} then Holds(false)
      else Holds(true)
  }

  /** A descriptor's own condition overrides the KSampler rules. */
  lemma ConditionDecidesAlone(params: Option<Json>, nodeType: string, paramName: string,
                              str: Option<Json> -> string, num: Option<Json> -> Num)
    requires !IsNullish(params) && Truthy(Member(Member(params, paramName), "condition"))
    ensures ShouldShowParam(params, nodeType, paramName, str, num) ==
              EvaluateCondition(Member(Member(params, paramName), "condition").value, params, str, num)
  {
  }

  /**
   * Without a condition, on a KSampler node `noise_offset` is shown exactly when `add_noise` is
   * not `false`, `eta` exactly for the `ddim` and `dpm_solver_++` schedulers, and any other
   * parameter always; on other nodes every parameter is shown.
   */
  lemma KSamplerVisibility(params: Option<Json>, nodeType: string, paramName: string,
                           str: Option<Json> -> string, num: Option<Json> -> Num)
    requires !IsNullish(params) && !Truthy(Member(Member(params, paramName), "condition"))
    ensures var shown := ShouldShowParam(params, nodeType, paramName, str, num);
      var addNoise := Member(Member(params, "add_noise"), "value");
      var scheduler := Member(Member(params, "scheduler"), "value");
      && shown.Holds?
      && (!Contains(nodeType, "KSampler") ==> shown.b)
      && (Contains(nodeType, "KSampler") && paramName == "noise_offset" ==> (shown.b <==> addNoise != Some(JBool(false))))
      && (Contains(nodeType, "KSampler") && paramName == "eta" ==>
            (shown.b <==> scheduler == Some(JStr("ddim")) || scheduler == Some(JStr("dpm_solver_++"))))
      && (paramName != "noise_offset" && paramName != "eta" ==> shown.b)
  {
  }

  // ---------------------------------------------------------------------------------------
  // groupParams

  datatype Group = Core | Advanced | Lora | ControlNet | Other

  /** An entry of `Object.entries(params)`. */
  type Entry = (string, Json)

  /** `Object.entries` of an object: each key once, with its value, in insertion order. */
  function Entries(fs: seq<Field>): (r: seq<Entry>)
    ensures |r| == |Keys(fs)|
    ensures forall i :: 0 <= i < |r| ==> r[i].0 == Keys(fs)[i] && Get(fs, r[i].0) == Some(r[i].1)
  {
    var ks := Keys(fs);
    seq(|ks|, i requires 0 <= i < |ks| => (ks[i], Get(fs, ks[i]).value))
  }

  /** The group of a parameter, by the branches of the `forEach` in order. */
  function Category(nodeType: string, paramName: string): Group
  {
    var lower := LowerAscii(paramName);
    if Contains(nodeType, "KSampler") && lower in ["seed", "steps", "cfg"] then Core
    else if Contains(nodeType, "Checkpoint") && Contains(lower, "model_name") then Core
    else if Contains(lower, "lora") then Lora
    else if Contains(lower, "controlnet") || Contains(lower, "control_net") then ControlNet
    else if Contains(nodeType, "KSampler") && lower in ["sampler_name", "scheduler"] then Advanced
    else Other
  }

  /** The entries of group `g`, in their order. */
  function Select(entries: seq<Entry>, nodeType: string, g: Group): (r: seq<Entry>)
    ensures forall e :: e in r <==> e in entries && Category(nodeType, e.0) == g
    ensures |r| <= |entries|
  {
    if entries == [] then []
    else
      var n := |entries| - 1;
      assert entries == entries[..n] + [entries[n]];
      Select(entries[..n], nodeType, g) + (if Category(nodeType, entries[n].0) == g then [entries[n]] else [])
  }

  /** Taking one more entry appends it to its own group only. */
  lemma SelectStep(entries: seq<Entry>, i: nat, nodeType: string)
    requires i < |entries|
    ensures forall g :: Select(entries[..i + 1], nodeType, g) ==
              Select(entries[..i], nodeType, g) + (if Category(nodeType, entries[i].0) == g then [entries[i]] else [])
  {
    assert entries[..i + 1][..i] == entries[..i];
  }

  /** The five groups together hold every entry exactly once. */
  lemma {:induction false} GroupsPartition(entries: seq<Entry>, nodeType: string)
    ensures |Select(entries, nodeType, Core)| + |Select(entries, nodeType, Advanced)| + |Select(entries, nodeType, Lora)|
            + |Select(entries, nodeType, ControlNet)| + |Select(entries, nodeType, Other)| == |entries|
    decreases |entries|
  {
    if entries != [] {
      GroupsPartition(entries[..|entries| - 1], nodeType);
    }
  }

  /** The entries `groupParams` sorts: none unless `params` is an object that is not an array. */
  function EntriesOf(params: Option<Json>): seq<Entry>
  {
    if params.Some? && params.value.JObj? then Entries(params.value.fields) else []
  }

  datatype Groups = Groups(core: seq<Entry>, advanced: seq<Entry>, lora: seq<Entry>, controlNet: seq<Entry>, other: seq<Entry>)

  function GroupOf(gs: Groups, g: Group): seq<Entry>
  {
    match g
    case Core => gs.core
    case Advanced => gs.advanced
    case Lora => gs.lora
    case ControlNet => gs.controlNet
    case Other => gs.other
  }

  /** `groupArray.push(entry)`. */
  function Push(gs: Groups, g: Group, e: Entry): (r: Groups)
    ensures forall h :: GroupOf(r, h) == GroupOf(gs, h) + (if g == h then [e] else [])
  {
    match g
    case Core => gs.(core := gs.core + [e])
    case Advanced => gs.(advanced := gs.advanced + [e])
    case Lora => gs.(lora := gs.lora + [e])
    case ControlNet => gs.(controlNet := gs.controlNet + [e])
    case Other => gs.(other := gs.other + [e])
  }

  /** Pushing the next entry onto the group it belongs to keeps each group its selection. */
  lemma PushSelects(gs: Groups, entries: seq<Entry>, i: nat, nodeType: string, g: Group)
    requires i < |entries| && g == Category(nodeType, entries[i].0)
    requires forall h :: GroupOf(gs, h) == Select(entries[..i], nodeType, h)
    ensures forall h :: GroupOf(Push(gs, g, entries[i]), h) == Select(entries[..i + 1], nodeType, h)
  {
    SelectStep(entries, i, nodeType);
  }

  /** `groupParams()`: pushes each entry of the parameters onto the array of its group. */
  method GroupParams(params: Option<Json>, nodeType: string) returns (gs: Groups)
    ensures forall g :: GroupOf(gs, g) == Select(EntriesOf(params), nodeType, g)
  {
    gs := Groups([], [], [], [], []);
    if !(params.Some? && params.value.JObj?) {
      return;
    }
    var entries := Entries(params.value.fields);
    var i := 0;
    while i < |entries|
      invariant 0 <= i <= |entries|
      invariant forall g :: GroupOf(gs, g) == Select(entries[..i], nodeType, g)
    {
      var (name, param) := entries[i];
      var lower := LowerAscii(name);
      var g: Group;
      if Contains(nodeType, "KSampler") && lower in ["seed", "steps", "cfg"] {
        g := Core;
      } else if Contains(nodeType, "Checkpoint") && Contains(lower, "model_name") {
        g := Core;
      } else if Contains(lower, "lora") {
        g := Lora;
      } else if Contains(lower, "controlnet") || Contains(lower, "control_net") {
        g := ControlNet;
      } else if Contains(nodeType, "KSampler") && lower in ["sampler_name", "scheduler"] {
        g := Advanced;
      } else {
        g := Other;
      }
      PushSelects(gs, entries, i, nodeType, g);
      gs := Push(gs, g, (name, param));
      i := i + 1;
    }
    assert entries[..i] == entries;
  }

  // ---------------------------------------------------------------------------------------
  // The value a parameter's control shows

  /** As written: the control reads `getParamValue(params, path || paramName)`. */
  function DisplayedValue(params: Option<Json>, paramName: string, path: string): Read
  {
    ParamValue(params, Segments(if path != "" then path else paramName))
  }

  /** As intended: the control of a nested parameter reads the parameter itself, at `path.paramName`. */
  function IntendedDisplayedValue(params: Option<Json>, paramName: string, path: string): Read
  {
    ParamValue(params, Segments(if path != "" then path + "." + paramName else paramName))
  }

  /** A parameter name without `.` or `[` is a path of one plain segment. */
  lemma SegmentsOfName(paramName: string)
    requires '.' !in paramName && '[' !in paramName
    ensures Segments(paramName) == [Plain(paramName)]
  {
    PlainPart(paramName);
    assert Split(paramName, '.') == [paramName];
  }

  /** A flat edit reads back at the parameter's own name. */
  lemma FlatChangeThenRead(params: Option<Json>, paramName: string, v: Json)
    requires '.' !in paramName && '[' !in paramName
    requires params.Some? && params.value.JObj?
    ensures FlatUpdate(params, paramName, v).Written?
    ensures ParamValue(Some(JObj(FlatUpdate(params, paramName, v).fields)), Segments(paramName)) == Value(Defined(Some(v)))
  {
    var fields := SetParam(SpreadFields(params), paramName, v);
    assert FlatUpdate(params, paramName, v) == Written(fields);
    SegmentsOfName(paramName);
    ReadSetParam(SpreadFields(params), paramName, v);
  }

  /**
   * Editing the sub-parameter `paramName` of an object parameter `path` (say `w` of `cfg`, on
   * parameters `{}`) stores the value at `path.paramName`, but the control reads `path`: it shows
   * the container holding the edited descriptor, which is never the value itself.
   */
  lemma NestedControlShowsContainer(params: Option<Json>, path: string, paramName: string, v: Json)
    requires path != "" && '.' !in path && '[' !in path
    requires ShapedFor(SpreadFields(params), [Plain(path)])
    ensures var r := PropertyChange(params, paramName, v, path);
      && r.Written?
      && var shown := DisplayedValue(Some(JObj(r.fields)), paramName, path);
      && shown.Value? && shown.v.Some? && shown.v.value.JObj?
      && Member(Member(shown.v, paramName), "value") == Defined(Some(v))
      && shown != Value(Some(v))
  {
    var fs := SpreadFields(params);
    var seg := Plain(path);
    var entry := EntryOf(fs, seg);
    var f := Inner(ContainerOf(entry, seg), seg).value;
    var inner := SetParam(f, paramName, v);
    var d := Put(entry.fields, "value", JObj(inner));
    var out := Put(fs, path, JObj(d));
    assert RestWrite(fs, [seg], paramName, v) == Written(inner);
    WriteUnfolds(fs, [seg], paramName, v);
    SegmentsOfName(path);
    assert PropertyChange(params, paramName, v, path) == Written(out);
    assert DisplayedValue(Some(JObj(out)), paramName, path) == ParamValue(Some(JObj(out)), [seg]);
    ReadDescriptor(fs, path, d);
    RebuiltEntry(fs, path, entry.fields, JObj(inner));
    ContainerHoldsValue(f, paramName, v);
  }

  /** The value written by `SetParam` sits strictly inside the container it returns. */
  lemma ContainerHoldsValue(f: seq<Field>, paramName: string, v: Json)
    ensures Some(JObj(SetParam(f, paramName, v))) != Some(v)
  {
    var inner := SetParam(f, paramName, v);
    var descriptor := Member(Some(JObj(inner)), paramName);
    assert Member(descriptor, "value") == Defined(Some(v));
    if v != JUndef {
      assert Field("value", v) in descriptor.value.fields;
      assert Field(paramName, descriptor.value) in inner;
      assert v < JObj(inner);
    }
  }

  /**
   * With the intended read, a control shows the value just written to it: flat parameters of an
   * existing parameter object, and nested ones along a path of well-shaped containers.
   */
  lemma ChangeThenDisplay(params: Option<Json>, paramName: string, v: Json, path: string)
    requires '.' !in paramName && '[' !in paramName
    requires path == "" ==> params.Some? && params.value.JObj?
    requires path != "" ==> ShapedFor(SpreadFields(params), Segments(path))
    ensures PropertyChange(params, paramName, v, path).Written?
    ensures IntendedDisplayedValue(Some(JObj(PropertyChange(params, paramName, v, path).fields)), paramName, path)
              == Value(Defined(Some(v)))
  {
    if path != "" {
      NestedChangeThenRead(params, path, paramName, v);
    } else {
      FlatChangeThenRead(params, paramName, v);
    }
  }
}
