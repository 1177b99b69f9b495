/**
 Placeholder translation, `_driver_bind` and `_bind` of dblift/db/sqlalchemy_provider.py: the
 `?` of dblift's SQL become what the driver's parameter style wants.

 A parameter is modelled by the text it stands for in the statement the driver sends.
 */
module DriverBind {
  import opened Basics
  import opened Decimals

  /** `Format` stands for `format` and `pyformat`, which are treated alike; `Named` for every other style. */
  datatype Style = Qmark | Format | Numeric | NumericDollar | Named

  datatype Fault = TooFewParameters

  /** What goes to the driver beside the text. */
  datatype Bound = Positional(values: seq<string>) | Keyed(bindings: map<string, string>)

  // ---------------------------------------------------------------- what is wanted

  /** The text between the placeholders. */
  function Parts(sql: string): (r: seq<string>)
    ensures r != []
  {
    if sql == "" then [""]
    else
      var rest := Parts(sql[1..]);
      if sql[0] == '?' then [""] + rest else [[sql[0]] + rest[0]] + rest[1..]
  }

  /** The parts with one filling between each two. */
  function Interleave(parts: seq<string>, fills: seq<string>): string
    requires |parts| == |fills| + 1
  {
    if fills == [] then parts[0] else parts[0] + fills[0] + Interleave(parts[1..], fills[1..])
  }

  /** Each `?` replaced by its parameter, when there are as many of the one as of the other. */
  function Substitute(sql: string, params: seq<string>): Option<string> {
    if |Parts(sql)| == |params| + 1 then Some(Interleave(Parts(sql), params)) else None
  }

  // ---------------------------------------------------------------- the translation

  /** `sql.replace("%", "%%")`. */
  function Double(sql: string): string {
    if sql == "" then "" else (if sql[0] == '%' then "%%" else [sql[0]]) + Double(sql[1..])
  }

  /** `re.sub(r"\?", "%s", sql)`. */
  function Marks(sql: string): string {
    if sql == "" then "" else (if sql[0] == '?' then "%s" else [sql[0]]) + Marks(sql[1..])
  }

  /** Each `?` gets the next name; running out of names raises. */
  function Rename(sql: string, names: seq<string>): Option<string> {
    if sql == "" then Some("")
    else if sql[0] != '?' then Prepend([sql[0]], Rename(sql[1..], names))
    else if names == [] then None
    else Prepend(names[0], Rename(sql[1..], names[1..]))
  }

  function Prepend(head: string, tail: Option<string>): Option<string> {
    if tail.Some? then Some(head + tail.value) else None
  }

  /** `prefix` followed by `from`, `from + 1`, and so on. */
  function Names(prefix: string, from: nat, n: nat): (r: seq<string>)
    ensures |r| == n && forall i :: 0 <= i < n ==> r[i] == prefix + Decimal(from + i)
  {
    seq(n, i requires 0 <= i < n => prefix + Decimal(from + i))
  }

  /** `dict(zip(names, values))`. */
  function Zip(names: seq<string>, values: seq<string>): map<string, string>
    requires |names| == |values|
  {
    if names == [] then map[]
    else Zip(names[..|names| - 1], values[..|values| - 1])[names[|names| - 1] := values[|values| - 1]]
  }

  function OrFault(sql: Option<string>, bound: Bound): Result<(string, Bound), Fault> {
    if sql.Some? then Success((sql.value, bound)) else Failure(TooFewParameters)
  }

  /** `_driver_bind` for a list of parameters. */
  function DriverBind(sql: string, params: seq<string>, style: Style, escapePercent: bool):
    Result<(string, Bound), Fault>
  {
    match style
    case Qmark => Success((sql, Positional(params)))
    case Format => Success((Marks(if escapePercent then Double(sql) else sql), Positional(params)))
    case Numeric => OrFault(Rename(sql, Names(":", 1, |params|)), Positional(params))
    case NumericDollar => OrFault(Rename(sql, Names("$", 1, |params|)), Positional(params))
    case Named => Bind(sql, params)
  }

  /** `_bind` for a list of parameters. */
  function Bind(sql: string, params: seq<string>): Result<(string, Bound), Fault> {
    OrFault(Rename(sql, Names(":p", 0, |params|)), Keyed(Zip(Names("p", 0, |params|), params)))
  }

  // ---------------------------------------------------------------- what the drivers do

  /**
   A driver with an escape: `%%` is a percent sign, `%s` the next parameter, and a percent sign
   before anything else, a parameter missing or one left over is an error.
   */
  function Expand(text: string, params: seq<string>): Option<string>
    decreases |text|
  {
    if text == "" then if params == [] then Some("") else None
    else if text[0] != '%' then Prepend([text[0]], Expand(text[1..], params))
    else if |text| < 2 then None
    else if text[1] == '%' then Prepend("%", Expand(text[2..], params))
    else if text[1] == 's' && params != [] then Prepend(params[0], Expand(text[2..], params[1..]))
    else None
  }

  /** Where a driver without an escape (pymssql) sees a slot: `%s` or `%d`. */
  predicate SlotAhead(text: string) {
    |text| >= 2 && text[0] == '%' && (text[1] == 's' || text[1] == 'd')
  }

  /** Such a driver: each slot is the next parameter, and nothing else means anything. */
  function ExpandPlain(text: string, params: seq<string>): Option<string>
    decreases |text|
  {
    if text == "" then if params == [] then Some("") else None
    else if SlotAhead(text) then
      if params == [] then None else Prepend(params[0], ExpandPlain(text[2..], params[1..]))
    else Prepend([text[0]], ExpandPlain(text[1..], params))
  }

  // ---------------------------------------------------------------- format style

  lemma SubstituteNext(sql: string, params: seq<string>)
    requires sql != ""
    ensures sql[0] != '?' ==> Substitute(sql, params) == Prepend([sql[0]], Substitute(sql[1..], params))
    ensures sql[0] == '?' && params != [] ==>
      Substitute(sql, params) == Prepend(params[0], Substitute(sql[1..], params[1..]))
    ensures sql[0] == '?' && params == [] ==> Substitute(sql, params) == None
  {
    var rest := Parts(sql[1..]);
    if sql[0] == '?' {
      assert Parts(sql)[1..] == rest;
      if params != [] {
        assert "" + params[0] == params[0];
      }
    } else if |rest| == |params| + 1 {
      InterleaveNext(sql[0], rest, params);
    }
  }

  lemma InterleaveNext(c: char, parts: seq<string>, fills: seq<string>)
    requires |parts| == |fills| + 1
    ensures Interleave([[c] + parts[0]] + parts[1..], fills) == [c] + Interleave(parts, fills)
  {
    if fills != [] {
      var more := Interleave(parts[1..], fills[1..]);
      assert ([[c] + parts[0]] + parts[1..])[1..] == parts[1..];
      assert ([c] + parts[0]) + fills[0] + more == [c] + (parts[0] + fills[0] + more);
    }
  }

  lemma MarksNext(c: char, text: string)
    ensures Marks([c] + text) == (if c == '?' then "%s" else [c]) + Marks(text)
  {
    assert ([c] + text)[1..] == text;
  }

  lemma MarksDoubled(sql: string)
    requires sql != ""
    ensures Marks(Double(sql)) ==
      (if sql[0] == '%' then "%%" else if sql[0] == '?' then "%s" else [sql[0]]) + Marks(Double(sql[1..]))
  {
    var rest := Double(sql[1..]);
    MarksNext(sql[0], rest);
    if sql[0] == '%' {
      assert Double(sql) == "%" + ("%" + rest);
      MarksNext('%', "%" + rest);
      assert "%" + ("%" + Marks(rest)) == "%%" + Marks(rest);
    }
  }

  lemma {:induction false} FormatExpands(sql: string, params: seq<string>)
    ensures Expand(Marks(Double(sql)), params) == Substitute(sql, params)
    decreases |sql|
  {
    if sql != "" {
      var rest := Marks(Double(sql[1..]));
      MarksDoubled(sql);
      SubstituteNext(sql, params);
      FormatExpands(sql[1..], params);
      if sql[0] == '%' {
        assert ("%%" + rest)[2..] == rest;
      } else if sql[0] == '?' {
        assert ("%s" + rest)[2..] == rest;
        if params != [] {
          FormatExpands(sql[1..], params[1..]);
        }
      } else {
        assert ([sql[0]] + rest)[1..] == rest;
      }
    }
  }

  /**
   Whatever percent signs the SQL holds: translating to the format style and letting the driver
   expand it replaces each `?` by its parameter, or fails exactly when the counts differ.
   */
  lemma FormatStyle(sql: string, params: seq<string>)
    ensures var r := DriverBind(sql, params, Format, true);
      r.Success? && r.value.1 == Positional(params) && Expand(r.value.0, params) == Substitute(sql, params)
  {
    FormatExpands(sql, params);
  }

  // ---------------------------------------------------------------- no escape

  /** How often `%s` or `%d` stands in a text. */
  function Slots(text: string): nat {
    if text == "" then 0 else Slots(text[1..]) + if SlotAhead(text) then 1 else 0
  }

  lemma {:induction false} PlainNeedsSlots(text: string, params: seq<string>)
    ensures ExpandPlain(text, params).Some? <==> |params| == Slots(text)
    decreases |text|
  {
    if text != "" {
      if SlotAhead(text) {
        assert text[1..][1..] == text[2..];
        if params != [] {
          PlainNeedsSlots(text[2..], params[1..]);
        }
      } else {
        PlainNeedsSlots(text[1..], params);
      }
    }
  }

  lemma SlotsNext(c: char, text: string)
    ensures Slots([c] + text) == Slots(text) + if c == '%' && text != "" && text[0] in {'s', 'd'} then 1 else 0
  {
    assert ([c] + text)[1..] == text;
  }

  lemma MarksStart(sql: string)
    requires sql != ""
    ensures Marks(sql) != "" && Marks(sql)[0] == if sql[0] == '?' then '%' else sql[0]
  {
  }

  /** A `?` turned into `%s` adds a slot. */
  lemma MarkIsSlot(sql: string)
    requires sql != "" && sql[0] == '?'
    ensures Slots(Marks(sql)) == Slots(Marks(sql[1..])) + 1
  {
    var rest := Marks(sql[1..]);
    assert Marks(sql) == "%" + ("s" + rest);
    SlotsNext('s', rest);
    SlotsNext('%', "s" + rest);
  }

  /** Any other character starts a slot in the translation exactly if it does in the text. */
  lemma OtherIsNoSlot(sql: string)
    requires sql != "" && sql[0] != '?'
    ensures Slots(Marks(sql)) - Slots(Marks(sql[1..])) == Slots(sql) - Slots(sql[1..])
  {
    SlotsNext(sql[0], Marks(sql[1..]));
    assert sql == [sql[0]] + sql[1..];
    SlotsNext(sql[0], sql[1..]);
    if sql[1..] != "" {
      MarksStart(sql[1..]);
    }
  }

  lemma NoSlotAtMark(sql: string)
    requires sql != "" && sql[0] == '?'
    ensures Slots(sql) == Slots(sql[1..])
  {
    assert sql == [sql[0]] + sql[1..];
    SlotsNext(sql[0], sql[1..]);
  }

  lemma {:induction false} MarksSlots(sql: string)
    ensures Slots(Marks(sql)) == Slots(sql) + |Parts(sql)| - 1
    decreases |sql|
  {
    if sql != "" {
      MarksSlots(sql[1..]);
      if sql[0] == '?' {
        MarkIsSlot(sql);
        NoSlotAtMark(sql);
      } else {
        OtherIsNoSlot(sql);
      }
    }
  }

  lemma {:induction false} PlainStyleWithoutSlots(sql: string, params: seq<string>)
    requires Slots(sql) == 0
    ensures ExpandPlain(Marks(sql), params) == Substitute(sql, params)
    decreases |sql|
  {
    if sql != "" {
      var rest := Marks(sql[1..]);
      SubstituteNext(sql, params);
      PlainStyleWithoutSlots(sql[1..], params);
      if sql[0] == '?' {
        assert ("%s" + rest)[2..] == rest;
        if params != [] {
          PlainStyleWithoutSlots(sql[1..], params[1..]);
        }
      } else {
        assert ([sql[0]] + rest)[1..] == rest;
        if |sql| >= 2 {
          assert rest[0] == if sql[1] == '?' then '%' else sql[1];
        }
      }
    }
  }

  /**
   With no escape the translation is right exactly when the SQL holds no slot of its own, or when
   the number of parameters fits neither its `?` nor its `?` and slots together: both fail then.
   */
  lemma PlainStyle(sql: string, params: seq<string>)
    ensures var r, marks := DriverBind(sql, params, Format, false), |Parts(sql)| - 1;
      && r.Success?
      && (ExpandPlain(r.value.0, params) == Substitute(sql, params) <==>
          Slots(sql) == 0 || (|params| != marks && |params| != marks + Slots(sql)))
  {
    PlainNeedsSlots(Marks(sql), params);
    MarksSlots(sql);
    if Slots(sql) == 0 {
      PlainStyleWithoutSlots(sql, params);
    }
  }

  /** A slot and a `?`, with the one parameter there is a `?` for. */
  lemma SlotOfItsOwn(c: char)
    requires c == 's' || c == 'd'
    ensures |Parts(['%', c, '?'])| == 2 && Slots(['%', c, '?']) == 1
  {
    var sql := ['%', c, '?'];
    assert sql[1..] == [c, '?'] && [c, '?'][1..] == ['?'] && ['?'][1..] == "";
    assert |Parts(['?'])| == 2 && |Parts([c, '?'])| == 2;
    assert Slots(['?']) == 0 && Slots([c, '?']) == 0;
  }

  /** Two such texts, with the one parameter they have a `?` for. */
  lemma PercentSlotFails()
    ensures |Parts("%s?")| == 2 && |Parts("%d?")| == 2
    ensures ExpandPlain(DriverBind("%s?", ["1"], Format, false).value.0, ["1"]) != Substitute("%s?", ["1"])
    ensures ExpandPlain(DriverBind("%d?", ["1"], Format, false).value.0, ["1"]) != Substitute("%d?", ["1"])
  {
    SlotOfItsOwn('s');
    SlotOfItsOwn('d');
    assert "%s?" == ['%', 's', '?'] && "%d?" == ['%', 'd', '?'];
    PlainStyle("%s?", ["1"]);
    PlainStyle("%d?", ["1"]);
  }

  // ---------------------------------------------------------------- names

  /** The i-th `?` becomes the i-th name, everything else stays, and too few names are noticed. */
  lemma {:induction false} RenamePlaces(sql: string, names: seq<string>)
    ensures var n := |Parts(sql)| - 1;
      Rename(sql, names) == if n <= |names| then Some(Interleave(Parts(sql), names[..n])) else None
    decreases |sql|
  {
    if sql != "" {
      var n := |Parts(sql)| - 1;
      if sql[0] != '?' {
        RenamePlaces(sql[1..], names);
        if n <= |names| {
          SubstituteNext(sql, names[..n]);
        }
      } else if names != [] {
        RenamePlaces(sql[1..], names[1..]);
        if n <= |names| {
          SubstituteNext(sql, names[..n]);
          assert names[..n][1..] == names[1..][..n - 1];
        }
      }
    }
  }

  lemma {:induction false} ZipKeepsAll(names: seq<string>, values: seq<string>)
    requires |names| == |values|
    requires forall i, j :: 0 <= i < j < |names| ==> names[i] != names[j]
    ensures forall i :: 0 <= i < |names| ==> names[i] in Zip(names, values) && Zip(names, values)[names[i]] == values[i]
  {
    if names != [] {
      ZipKeepsAll(names[..|names| - 1], values[..|values| - 1]);
    }
  }

  lemma NamesDiffer(prefix: string, from: nat, n: nat)
    ensures var names := Names(prefix, from, n);
      forall i, j :: 0 <= i < j < n ==> names[i] != names[j]
  {
    var names := Names(prefix, from, n);
    forall i, j | 0 <= i < j < n ensures names[i] != names[j] {
      if names[i] == names[j] {
        assert names[i][|prefix|..] == Decimal(from + i) && names[j][|prefix|..] == Decimal(from + j);
        DecimalInjective(from + i, from + j);
        assert false;
      }
    }
  }

  /**
   Named parameters: it works when the names do not run out; then the i-th `?` has become `:p`
   and i, and that name is bound to the i-th parameter.
   */
  lemma NamedStyle(sql: string, params: seq<string>)
    ensures var r, marks, names := Bind(sql, params), |Parts(sql)| - 1, Names("p", 0, |params|);
      && (r.Success? <==> marks <= |params|)
      && (r.Success? ==>
          && r.value.0 == Interleave(Parts(sql), Names(":p", 0, marks))
          && r.value.1.Keyed?
          && forall i :: 0 <= i < |params| ==>
            names[i] in r.value.1.bindings && r.value.1.bindings[names[i]] == params[i])
  {
    var marks := |Parts(sql)| - 1;
    RenamePlaces(sql, Names(":p", 0, |params|));
    NamesDiffer("p", 0, |params|);
    ZipKeepsAll(Names("p", 0, |params|), params);
    if marks <= |params| {
      assert Names(":p", 0, |params|)[..marks] == Names(":p", 0, marks);
    }
  }

  /** What is given to the driver of a style that wants its placeholders as they are. */
  lemma QmarkStyle(sql: string, params: seq<string>, escapePercent: bool)
    ensures var r := DriverBind(sql, params, Qmark, escapePercent);
      r.Success? && r.value.1 == Positional(params) && Substitute(r.value.0, params) == Substitute(sql, params)
  {
  }

  /** Numbers from one, each with its prefix. */
  predicate Numbered(names: seq<string>, prefix: char) {
    forall i :: 0 <= i < |names| ==> names[i] == [prefix] + Decimal(i + 1)
  }

  /**
   Numbered parameters: it works exactly when there are parameters enough; then the i-th `?` has
   become the prefix and i, counted from one, and the parameters are given in their order.
   */
  lemma NumberedStyle(sql: string, params: seq<string>, dollar: bool, escapePercent: bool)
    ensures var r := DriverBind(sql, params, if dollar then NumericDollar else Numeric, escapePercent);
      var marks := |Parts(sql)| - 1;
      && (r.Success? <==> marks <= |params|)
      && (r.Success? ==> r.value.1 == Positional(params) && exists names ::
            |names| == marks && Numbered(names, if dollar then '$' else ':') &&
            r.value.0 == Interleave(Parts(sql), names))
  {
    var prefix, marks := if dollar then "$" else ":", |Parts(sql)| - 1;
    RenamePlaces(sql, Names(prefix, 1, |params|));
    if marks <= |params| {
      var names := Names(prefix, 1, |params|)[..marks];
      assert |names| == marks && Numbered(names, if dollar then '$' else ':');
    }
  }
}
