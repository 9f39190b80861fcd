/**
 * How the mysqli statement inlines its parameters into the SQL text
 * (`bindParametersFromContainer`): each value is rendered as SQL, named
 * parameters are substituted longest name first, and the text between `?`
 * marks is interleaved with the positional values.
 *
 * The platform's `quoteValue` (the MySQL platform of the framework, which
 * is not part of this model) and the rendering of floats are parameters.
 */
module MysqliBinding {
  import opened Wrappers
  import opened Php
  import opened ParameterContainer

  /**
   * The conversions the statement borrows: the MySQL platform's
   * `quoteValue`, and the text of `floatval($value)` once concatenated.
   */
  datatype Conversions = Conversions(quote: string -> string, floatText: Value -> string)

  // ---------------------------------------------------------------------------
  // Rendering one value
  // ---------------------------------------------------------------------------

  /** A value without errata: `NULL`, a boolean as 0/1, an integer as is, anything else quoted. */
  function RenderUntyped(v: Value, conv: Conversions): (r: string)
    ensures v.Null? ==> r == "NULL"
    ensures v.Bool? ==> r == (if v.b then "1" else "0")
    ensures v.Int? ==> r == IntToString(v.i)
    ensures v.Str? ==> r == conv.quote(v.s)
  {
    match v
    case Null => "NULL"
    case Bool(b) => IntToString(if b then 1 else 0)
    case Int(i) => IntToString(i)
    case _ => conv.quote(StrVal(v))
  }

  /**
   * A value with errata as written: the `TYPE_NULL` case has
   * no `break`, so its `'NULL'` falls into the `TYPE_INTEGER` case and
   * becomes `intval('NULL')`.
   */
  function RenderErrataAsWritten(v: Value, e: Errata, conv: Conversions): (r: string)
    ensures e == TypeInteger ==> r == IntToString(IntVal(v))
    ensures e.TypeDouble? ==> r == conv.floatText(v)
    ensures e.TypeString? || e.TypeLob? || e.TypeOther? ==> r == conv.quote(StrVal(v))
  {
    match e
    case TypeDouble => conv.floatText(v)
    case TypeNull => IntToString(IntVal(Str("NULL")))
    case TypeInteger => IntToString(IntVal(v))
    case _ => conv.quote(StrVal(v))
  }

  /** The intended rendering: a `TYPE_NULL` parameter is SQL `NULL`, whatever its value. */
  function RenderErrata(v: Value, e: Errata, conv: Conversions): (r: string)
    ensures e == TypeNull ==> r == "NULL"
    ensures e == TypeInteger ==> r == IntToString(IntVal(v))
    ensures e.TypeDouble? ==> r == conv.floatText(v)
    ensures e.TypeString? || e.TypeLob? || e.TypeOther? ==> r == conv.quote(StrVal(v))
  {
    if e == TypeNull then "NULL" else RenderErrataAsWritten(v, e, conv)
  }

  /** `intval('NULL')` is 0: the string has no leading digits. */
  lemma IntValOfNull()
    ensures IntVal(Str("NULL")) == 0
  {
    assert SkipSpaces("NULL") == "NULL";
    assert LeadingDigits("NULL") == "";
  }

  /**
   * A `TYPE_NULL` parameter is sent as `0` as written and as `NULL` by
   * the intended code; the two agree on every other errata.
   */
  lemma NullErrataBecomesZero(v: Value, conv: Conversions)
    ensures RenderErrataAsWritten(v, TypeNull, conv) == "0"
    ensures RenderErrata(v, TypeNull, conv) == "NULL"
    ensures forall e :: e != TypeNull ==> RenderErrataAsWritten(v, e, conv) == RenderErrata(v, e, conv)
  {
    IntValOfNull();
    assert NatToString(0) == "0";
  }

  /** One parameter's SQL text, as written (so a `TYPE_NULL` errata gives `0`). */
  function Render(p: Param, conv: Conversions): string {
    if p.errata.Some? then RenderErrataAsWritten(p.value, p.errata.value, conv) else RenderUntyped(p.value, conv)
  }

  // ---------------------------------------------------------------------------
  // Named and positional parameters
  // ---------------------------------------------------------------------------

  /** A placeholder and the text that replaces it. */
  datatype Binding = Binding(key: string, text: string)

  /** A named parameter's placeholder: the name, with `:` put in front when missing. */
  function Placeholder(name: string): (k: string)
    ensures |k| >= 1 && k[0] == ':'
    ensures StartsWith(name, ":") ==> k == name
    ensures !StartsWith(name, ":") ==> k == ":" + name
  {
    if StartsWith(name, ":") then name else ":" + name
  }

  predicate HasBinding(named: seq<Binding>, k: string) {
    exists i :: 0 <= i < |named| && named[i].key == k
  }

  /** No placeholder twice, as in a PHP array. */
  predicate UniqueKeys(named: seq<Binding>) {
    forall i, j :: 0 <= i < j < |named| ==> named[i].key != named[j].key
  }

  /** `$named[$k] = $text`: replaced in place when present, appended otherwise. */
  function Put(named: seq<Binding>, k: string, text: string): (r: seq<Binding>)
    ensures HasBinding(named, k) ==> |r| == |named|
    ensures !HasBinding(named, k) ==> r == named + [Binding(k, text)]
    ensures forall i :: 0 <= i < |named| ==> r[i].key == named[i].key
    ensures forall i :: 0 <= i < |named| && named[i].key != k ==> r[i] == named[i]
    ensures forall i :: 0 <= i < |r| && r[i].key == k ==> r[i].text == text
    ensures HasBinding(r, k)
    ensures UniqueKeys(named) ==> UniqueKeys(r)
  {
    if HasBinding(named, k) then
      var r := seq(|named|, i requires 0 <= i < |named| => if named[i].key == k then Binding(k, text) else named[i]);
      var i :| 0 <= i < |named| && named[i].key == k;
      assert r[i].key == k;
      r
    else
      var r := named + [Binding(k, text)];
      assert r[|named|].key == k;
      r
  }

  /** The `foreach` over the container: integer names go to the positional list, others are named. */
  function Classify(params: seq<Param>, conv: Conversions): (r: (seq<Binding>, seq<string>))
    decreases |params|
  {
    if |params| == 0 then ([], [])
    else
      var (named, positioned) := Classify(params[..|params| - 1], conv);
      var p := params[|params| - 1];
      match p.name
      case IntKey(_) => (named, positioned + [Render(p, conv)])
      case StrKey(s) => (Put(named, Placeholder(s), Render(p, conv)), positioned)
  }

  /** The positional values: the rendered entries with integer names, in container order. */
  function Positional(params: seq<Param>, conv: Conversions): (r: seq<string>)
    decreases |params|
  {
    if |params| == 0 then []
    else
      var p := params[|params| - 1];
      Positional(params[..|params| - 1], conv) + (if p.name.IntKey? then [Render(p, conv)] else [])
  }

  /** The positional list collects the integer-named entries in order, and named placeholders are unique. */
  lemma {:induction false} ClassifyPositional(params: seq<Param>, conv: Conversions)
    ensures Classify(params, conv).1 == Positional(params, conv)
    ensures UniqueKeys(Classify(params, conv).0)
    decreases |params|
  {
    if |params| > 0 {
      ClassifyPositional(params[..|params| - 1], conv);
    }
  }

  /** A container with only integer names has no named placeholders. */
  lemma {:induction false} OnlyPositional(params: seq<Param>, conv: Conversions)
    requires forall i :: 0 <= i < |params| ==> params[i].name.IntKey?
    ensures Classify(params, conv).0 == []
    ensures |Classify(params, conv).1| == |params|
    ensures forall i :: 0 <= i < |params| ==> Classify(params, conv).1[i] == Render(params[i], conv)
    decreases |params|
  {
    if |params| > 0 {
      OnlyPositional(params[..|params| - 1], conv);
    }
  }

  /** Whether the entry at `j` is named and its placeholder is `k`. */
  predicate NamedAs(params: seq<Param>, j: int, k: string)
    requires 0 <= j < |params|
  {
    params[j].name.StrKey? && Placeholder(params[j].name.s) == k
  }

  /**
   * Named entries overwrite one another as array assignments do: the
   * placeholder `k` is present, and its text is the rendering of the LAST
   * entry that names it (`name` and `:name` name the same placeholder).
   */
  lemma {:induction false} NamedCollected(params: seq<Param>, conv: Conversions, j: nat, k: string)
    requires j < |params| && NamedAs(params, j, k)
    requires forall i :: j < i < |params| ==> !NamedAs(params, i, k)
    ensures HasBinding(Classify(params, conv).0, k)
    ensures forall i :: 0 <= i < |Classify(params, conv).0| && Classify(params, conv).0[i].key == k ==>
      Classify(params, conv).0[i].text == Render(params[j], conv)
    decreases |params|
  {
    var init := params[..|params| - 1];
    var p := params[|params| - 1];
    if j < |params| - 1 {
      assert !NamedAs(params, |params| - 1, k);
      forall i | j < i < |init| ensures !NamedAs(init, i, k) {
        assert !NamedAs(params, i, k);
      }
      NamedCollected(init, conv, j, k);
      assert init[j] == params[j];
      var named := Classify(init, conv).0;
      var i0 :| 0 <= i0 < |named| && named[i0].key == k;
      if p.name.StrKey? {
        var r := Put(named, Placeholder(p.name.s), Render(p, conv));
        assert r[i0].key == k;
      }
    }
  }

  // ---------------------------------------------------------------------------
  // Longest placeholder first
  // ---------------------------------------------------------------------------

  predicate SortedByLength(s: seq<Binding>) {
    forall i, j :: 0 <= i < j < |s| ==> |s[i].key| >= |s[j].key|
  }

  /** `x` placed after every placeholder at least as long as its own. */
  function Insert(x: Binding, s: seq<Binding>): (r: seq<Binding>)
    ensures |r| == |s| + 1
    decreases |s|
  {
    if |s| == 0 || |s[0].key| < |x.key| then [x] + s else [s[0]] + Insert(x, s[1..])
  }

  /** `uksort` by descending placeholder length; PHP's sort is stable. */
  function SortByLength(s: seq<Binding>): (r: seq<Binding>)
    ensures |r| == |s|
    decreases |s|
  {
    if |s| == 0 then [] else Insert(s[|s| - 1], SortByLength(s[..|s| - 1]))
  }

  lemma {:induction false} InsertPermutes(x: Binding, s: seq<Binding>)
    ensures multiset(Insert(x, s)) == multiset(s) + multiset{x}
    decreases |s|
  {
    if |s| > 0 && |s[0].key| >= |x.key| {
      InsertPermutes(x, s[1..]);
      assert s == [s[0]] + s[1..];
    }
  }

  /** Each placeholder at least as long as the next one. */
  predicate Descending(s: seq<Binding>)
    decreases |s|
  {
    |s| < 2 || (|s[0].key| >= |s[1].key| && Descending(s[1..]))
  }

  lemma {:induction false} DescendingSorted(s: seq<Binding>)
    requires Descending(s)
    ensures SortedByLength(s)
    decreases |s|
  {
    if |s| >= 2 {
      var t := s[1..];
      DescendingSorted(t);
      forall i, j | 0 <= i < j < |s| ensures |s[i].key| >= |s[j].key| {
        assert s[j] == t[j - 1];
        if i > 0 {
          assert s[i] == t[i - 1];
        } else if j > 1 {
          assert |t[0].key| >= |t[j - 1].key|;
        }
      }
    }
  }

  lemma {:induction false} InsertDescending(x: Binding, s: seq<Binding>)
    requires Descending(s)
    ensures Descending(Insert(x, s))
    decreases |s|
  {
    var r := Insert(x, s);
    if |s| == 0 {
    } else if |s[0].key| < |x.key| {
      assert r[1..] == s;
    } else {
      var rest := Insert(x, s[1..]);
      InsertDescending(x, s[1..]);
      assert r[1..] == rest;
      assert rest[0] == x || (|s| > 1 && rest[0] == s[1]);
    }
  }

  lemma {:induction false} SortDescending(s: seq<Binding>)
    ensures Descending(SortByLength(s))
    decreases |s|
  {
    if |s| > 0 {
      SortDescending(s[..|s| - 1]);
      InsertDescending(s[|s| - 1], SortByLength(s[..|s| - 1]));
    }
  }

  lemma {:induction false} SortPermutes(s: seq<Binding>)
    ensures multiset(SortByLength(s)) == multiset(s)
    decreases |s|
  {
    if |s| > 0 {
      var init, last := s[..|s| - 1], s[|s| - 1];
      assert s == init + [last];
      calc {
        multiset(SortByLength(s));
        == { SortLast(init, last); }
        multiset(Insert(last, SortByLength(init)));
        == { InsertPermutes(last, SortByLength(init)); }
        multiset(SortByLength(init)) + multiset{last};
        == { SortPermutes(init); }
        multiset(init) + multiset{last};
        multiset(init + [last]);
      }
    }
  }

  lemma SortLast(init: seq<Binding>, last: Binding)
    ensures SortByLength(init + [last]) == Insert(last, SortByLength(init))
  {
    assert (init + [last])[..|init|] == init;
  }

  /** Sorting orders by length and keeps exactly the same bindings. */
  lemma SortByLengthCorrect(s: seq<Binding>)
    ensures SortedByLength(SortByLength(s))
    ensures multiset(SortByLength(s)) == multiset(s)
  {
    SortDescending(s);
    SortPermutes(s);
    DescendingSorted(SortByLength(s));
  }

  /** The bindings whose placeholder has length `n`, in order. */
  function OfLength(s: seq<Binding>, n: nat): seq<Binding>
    decreases |s|
  {
    if |s| == 0 then []
    else OfLength(s[..|s| - 1], n) + (if |s[|s| - 1].key| == n then [s[|s| - 1]] else [])
  }

  lemma {:induction false} OfLengthConcat(a: seq<Binding>, b: seq<Binding>, n: nat)
    ensures OfLength(a + b, n) == OfLength(a, n) + OfLength(b, n)
    decreases |b|
  {
    if |b| == 0 {
      assert a + b == a;
    } else {
      assert (a + b)[..|a + b| - 1] == a + b[..|b| - 1];
      OfLengthConcat(a, b[..|b| - 1], n);
    }
  }

  lemma OfLengthSingle(x: Binding, n: nat)
    ensures OfLength([x], n) == (if |x.key| == n then [x] else [])
  {
    assert [x][..0] == [];
  }

  /** A descending list that starts shorter than `n` has nothing of length `n`. */
  lemma {:induction false} ShorterNone(s: seq<Binding>, n: nat)
    requires Descending(s) && (|s| == 0 || |s[0].key| < n)
    ensures OfLength(s, n) == []
    decreases |s|
  {
    if |s| > 0 {
      assert s == [s[0]] + s[1..];
      OfLengthConcat([s[0]], s[1..], n);
      OfLengthSingle(s[0], n);
      ShorterNone(s[1..], n);
    }
  }

  /** Putting the same binding in front of two lists keeps their difference. */
  lemma ConsOfLength(h: Binding, a: seq<Binding>, b: seq<Binding>, t: seq<Binding>, n: nat)
    requires OfLength(a, n) == OfLength(b, n) + t
    ensures OfLength([h] + a, n) == OfLength([h] + b, n) + t
  {
    OfLengthConcat([h], a, n);
    OfLengthConcat([h], b, n);
  }

  /** Placing `x` in front of a descending list of shorter placeholders. */
  lemma InsertFront(x: Binding, s: seq<Binding>, n: nat)
    requires Descending(s) && (|s| == 0 || |s[0].key| < |x.key|)
    ensures OfLength([x] + s, n) == OfLength(s, n) + (if |x.key| == n then [x] else [])
  {
    OfLengthSingle(x, n);
    OfLengthConcat([x], s, n);
    if |x.key| == n {
      ShorterNone(s, n);
    }
  }

  lemma {:induction false} InsertStable(x: Binding, s: seq<Binding>, n: nat)
    requires Descending(s)
    ensures OfLength(Insert(x, s), n) == OfLength(s, n) + (if |x.key| == n then [x] else [])
    decreases |s|
  {
    if |s| == 0 || |s[0].key| < |x.key| {
      InsertFront(x, s, n);
    } else {
      InsertStable(x, s[1..], n);
      ConsOfLength(s[0], Insert(x, s[1..]), s[1..], if |x.key| == n then [x] else [], n);
      assert s == [s[0]] + s[1..];
    }
  }

  /** The sort is stable: among placeholders of one length, the container order is kept. */
  lemma {:induction false} SortByLengthStable(s: seq<Binding>, n: nat)
    ensures OfLength(SortByLength(s), n) == OfLength(s, n)
    decreases |s|
  {
    if |s| > 0 {
      SortByLengthStable(s[..|s| - 1], n);
      SortDescending(s[..|s| - 1]);
      InsertStable(s[|s| - 1], SortByLength(s[..|s| - 1]), n);
    }
  }

  // ---------------------------------------------------------------------------
  // Building the SQL
  // ---------------------------------------------------------------------------

  /** `str_replace(array_keys($named), array_values($named), $subject)`: one placeholder after the other. */
  function ReplaceEach(subject: string, named: seq<Binding>): string
    decreases |named|
  {
    if |named| == 0 then subject
    else ReplaceEach(ReplaceAll(subject, named[0].key, named[0].text), named[1..])
  }

  function Head(pos: seq<string>): string {
    if |pos| > 0 then pos[0] else ""
  }

  function Tail(pos: seq<string>): seq<string> {
    if |pos| > 0 then pos[1..] else []
  }

  /** Whether the binding's placeholder starts `s`. */
  predicate StartsWithKey(s: string, b: Binding) {
    |b.key| > 0 && StartsWith(s, b.key)
  }

  /** The first binding, in order, whose placeholder starts `s`. */
  function FirstMatch(s: string, named: seq<Binding>): (r: Option<nat>)
    ensures r.Some? ==> r.value < |named| && StartsWithKey(s, named[r.value])
    ensures r.Some? ==> forall j :: 0 <= j < r.value ==> !StartsWithKey(s, named[j])
    ensures r.None? ==> forall j :: 0 <= j < |named| ==> !StartsWithKey(s, named[j])
    decreases |named|
  {
    if |named| == 0 then None
    else if StartsWithKey(s, named[0]) then Some(0)
    else
      match FirstMatch(s, named[1..])
      case None => None
      case Some(i) => Some(i + 1)
  }

  /**
   * The intended replacement, as `strtr` does it: one scan of the subject
   * in which, at each position, the first matching placeholder (the
   * longest, after sorting) is replaced, and the text put in is never
   * scanned again.
   */
  function ReplaceOnce(subject: string, named: seq<Binding>): string
    decreases |subject|
  {
    if |subject| == 0 then ""
    else
      match FirstMatch(subject, named)
      case Some(i) => named[i].text + ReplaceOnce(subject[|named[i].key|..], named)
      case None => [subject[0]] + ReplaceOnce(subject[1..], named)
  }

  /** Without placeholders nothing is replaced. */
  lemma {:induction false} ReplaceOnceNone(subject: string)
    ensures ReplaceOnce(subject, []) == subject
    decreases |subject|
  {
    if |subject| > 0 {
      ReplaceOnceNone(subject[1..]);
      assert subject == [subject[0]] + subject[1..];
    }
  }

  /**
   * A subject that is exactly one placeholder becomes exactly that
   * placeholder's text, whatever the text holds: longer placeholders cannot
   * start it, and shorter ones come later in the sorted list.
   */
  lemma PlaceholderBecomesText(named: seq<Binding>, i: nat)
    requires i < |named| && |named[i].key| > 0
    requires SortedByLength(named) && UniqueKeys(named)
    ensures ReplaceOnce(named[i].key, named) == named[i].text
  {
    var k := named[i].key;
    assert StartsWithKey(k, named[i]);
    var m := FirstMatch(k, named);
    assert m == Some(i);
    assert k[|k|..] == "";
  }

  /**
   * The loop over the fragments between `?` marks as written: each
   * fragment with its placeholders replaced by `str_replace`, then
   * `(string)array_shift($positioned)`.
   */
  function AssembleAsWritten(frags: seq<string>, named: seq<Binding>, pos: seq<string>): string
    decreases |frags|
  {
    if |frags| == 0 then ""
    else ReplaceEach(frags[0], named) + Head(pos) + AssembleAsWritten(frags[1..], named, Tail(pos))
  }

  /** The same loop with the intended one-scan replacement. */
  function Assemble(frags: seq<string>, named: seq<Binding>, pos: seq<string>): string
    decreases |frags|
  {
    if |frags| == 0 then ""
    else ReplaceOnce(frags[0], named) + Head(pos) + Assemble(frags[1..], named, Tail(pos))
  }

  /** `bindParametersFromContainer()` as written: the SQL that is sent. */
  function BindSqlAsWritten(sql: string, params: seq<Param>, conv: Conversions): string {
    var (named, positioned) := Classify(params, conv);
    AssembleAsWritten(Split(sql, '?'), SortByLength(named), positioned)
  }

  /** `bindParametersFromContainer()` with the intended one-scan replacement. */
  function BindSql(sql: string, params: seq<Param>, conv: Conversions): string {
    var (named, positioned) := Classify(params, conv);
    Assemble(Split(sql, '?'), SortByLength(named), positioned)
  }

  /**
   * `str_replace` with arrays rescans what it has put in: a quoted value
   * that spells another placeholder has that placeholder replaced inside
   * the literal, while the one-scan replacement leaves it alone.
   */
  lemma ValueRescanned()
    ensures var named := [Binding(":ab", "':c'"), Binding(":c", "1")];
      && ReplaceEach(":ab", named) == "'1'"
      && ReplaceOnce(":ab", named) == "':c'"
  {
    var named := [Binding(":ab", "':c'"), Binding(":c", "1")];
    assert ReplaceAll(":ab", ":ab", "':c'") == "':c'" by {
      assert ":ab"[..3] == ":ab";
      assert ":ab"[3..] == "";
    }
    ReplaceOnceCxample();
    ReplaceAllInQuote();
  }

  lemma ReplaceAllInQuote()
    ensures ReplaceAll("':c'", ":c", "1") == "'1'"
  {
    var s := "':c'";
    assert s[..2][0] != ":c"[0];
    assert s[1..][..2] == ":c";
    assert s[1..][2..] == "'";
    assert ReplaceAll("'", ":c", "1") == "'";
    assert ReplaceAll(s[1..], ":c", "1") == "1" + "'";
  }

  lemma ReplaceOnceCxample()
    ensures ReplaceOnce(":ab", [Binding(":ab", "':c'"), Binding(":c", "1")]) == "':c'"
  {
    var named := [Binding(":ab", "':c'"), Binding(":c", "1")];
    assert StartsWithKey(":ab", named[0]);
    assert ":ab"[3..] == "";
  }

  /**
   * The reference reading of positional inlining: scanning left to right,
   * each `?` is replaced by the next value (the empty string once they run
   * out), and at the end one more value, if any is left, is appended.
   */
  function FillSlots(s: string, pos: seq<string>): string
    decreases |s|
  {
    if |s| == 0 then Head(pos)
    else if s[0] == '?' then Head(pos) + FillSlots(s[1..], Tail(pos))
    else [s[0]] + FillSlots(s[1..], pos)
  }

  /** The fragments with the values between them, nothing replaced inside them. */
  function Interleave(frags: seq<string>, pos: seq<string>): string
    decreases |frags|
  {
    if |frags| == 0 then "" else frags[0] + Head(pos) + Interleave(frags[1..], Tail(pos))
  }

  /** Without placeholders, assembling only interleaves, with either replacement. */
  lemma {:induction false} AssembleInterleaves(frags: seq<string>, pos: seq<string>)
    ensures Assemble(frags, [], pos) == Interleave(frags, pos)
    ensures AssembleAsWritten(frags, [], pos) == Interleave(frags, pos)
    decreases |frags|
  {
    if |frags| > 0 {
      ReplaceOnceNone(frags[0]);
      AssembleInterleaves(frags[1..], Tail(pos));
    }
  }

  /** A character glued to the first fragment comes out first. */
  lemma InterleaveGlued(c: char, rest: seq<string>, pos: seq<string>)
    requires |rest| >= 1
    ensures Interleave([[c] + rest[0]] + rest[1..], pos) == [c] + Interleave(rest, pos)
  {
    var frags := [[c] + rest[0]] + rest[1..];
    assert frags[1..] == rest[1..];
    var tail := Head(pos) + Interleave(rest[1..], Tail(pos));
    assert Interleave(frags, pos) == ([c] + rest[0]) + tail;
    assert Interleave(rest, pos) == rest[0] + tail;
  }

  lemma {:induction false} InterleaveFills(s: string, pos: seq<string>)
    ensures Interleave(Split(s, '?'), pos) == FillSlots(s, pos)
    decreases |s|
  {
    if |s| == 0 {
      assert Split(s, '?') == [""];
      assert Interleave([""], pos) == "" + Head(pos) + Interleave([], Tail(pos));
    } else {
      var rest := Split(s[1..], '?');
      if s[0] == '?' {
        InterleaveFills(s[1..], Tail(pos));
        assert ([""] + rest)[1..] == rest;
      } else {
        InterleaveFills(s[1..], pos);
        InterleaveGlued(s[0], rest, pos);
      }
    }
  }

  lemma AssembleFills(s: string, pos: seq<string>)
    ensures Assemble(Split(s, '?'), [], pos) == FillSlots(s, pos)
    ensures AssembleAsWritten(Split(s, '?'), [], pos) == FillSlots(s, pos)
  {
    AssembleInterleaves(Split(s, '?'), pos);
    InterleaveFills(s, pos);
  }

  /**
   * With only positional parameters, the SQL sent is the statement's SQL
   * with its `?` marks filled left to right by the rendered values; the
   * two replacements agree, as there is nothing to replace.
   */
  lemma PositionalFill(sql: string, params: seq<Param>, conv: Conversions)
    requires forall i :: 0 <= i < |params| ==> params[i].name.IntKey?
    ensures BindSqlAsWritten(sql, params, conv) == FillSlots(sql, Classify(params, conv).1)
    ensures BindSql(sql, params, conv) == BindSqlAsWritten(sql, params, conv)
    ensures |Classify(params, conv).1| == |params|
    ensures forall i :: 0 <= i < |params| ==> Classify(params, conv).1[i] == Render(params[i], conv)
  {
    OnlyPositional(params, conv);
    assert SortByLength([]) == [];
    AssembleFills(sql, Classify(params, conv).1);
  }

  /** Exactly as many values as marks: no value is left over to append. */
  lemma {:induction false} FillSlotsExact(s: string, pos: seq<string>)
    requires |Split(s, '?')| == |pos| + 1
    ensures FillSlots(s, pos) == Assemble(Split(s, '?'), [], pos)
    ensures |pos| == 0 ==> FillSlots(s, pos) == s
    decreases |s|
  {
    AssembleFills(s, pos);
    if |pos| == 0 {
      assert |Split(s, '?')| == 1;
      ReplaceOnceNone(Split(s, '?')[0]);
      assert Assemble(Split(s, '?'), [], []) == Split(s, '?')[0] + "" + "";
      JoinSplit(s, '?');
    }
  }

  /** A placeholder that does not occur leaves a fragment unchanged. */
  lemma {:induction false} ReplaceEachAbsent(subject: string, named: seq<Binding>)
    requires forall j, i: nat :: 0 <= j < |named| && i <= |subject| ==> !OccursAt(subject, named[j].key, i)
    ensures ReplaceEach(subject, named) == subject
    decreases |named|
  {
    if |named| > 0 {
      ReplaceAllAbsent(subject, named[0].key, named[0].text);
      ReplaceEachAbsent(subject, named[1..]);
    }
  }
}
