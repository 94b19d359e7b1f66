/** Which arguments of a command are paths the caller means locally, how the client makes them
    absolute, and what the Runtime accepts. */
module CallerLocalPaths {
  import opened Options
  import opened JsStrings
  import opened FilesystemPaths
  import opened LocalPaths

  type Args = seq<JsString>

  datatype Default = Default(segments: Path, whenOption: Option<JsString>)

  datatype Spec = Spec(
    valueOptions: seq<JsString>, pathOptions: seq<JsString>, pathPositional: bool, positionalDefaults: bool,
    optionDefaults: map<JsString, Default>)

  const DASHES: JsString := [0x2D, 0x2D]

  predicate Dashed(s: JsString) { DASHES <= s }

  function NameOf(s: JsString): JsString
    requires Dashed(s)
  {
    s[2..]
  }

  predicate TakesValue(spec: Spec, s: JsString) { Dashed(s) && NameOf(s) in spec.valueOptions }

  // ----- scanning, index by index

  function FirstPositional(a: Args, spec: Spec, i: nat): int
    decreases |a| - i
  {
    if i >= |a| then -1
    else if Dashed(a[i]) then FirstPositional(a, spec, if TakesValue(spec, a[i]) then i + 2 else i + 1)
    else i
  }

  method FirstPositionalIndex(args: Args, spec: Spec) returns (index: int)
    ensures index == FirstPositional(args, spec, 1)
    ensures index != -1 ==> 1 <= index < |args| && !Dashed(args[index])
  {
    index := 1;
    while index < |args|
      invariant 1 <= index && FirstPositional(args, spec, 1) == FirstPositional(args, spec, index)
    {
      if Dashed(args[index]) {
        index := if TakesValue(spec, args[index]) then index + 2 else index + 1;
      } else {
        return;
      }
    }
    return -1;
  }

  function OptionValue(a: Args, spec: Spec, option: JsString, i: nat): int
    decreases |a| - i
  {
    if i >= |a| then -1
    else if !Dashed(a[i]) then OptionValue(a, spec, option, i + 1)
    else if NameOf(a[i]) == option then (if i + 1 < |a| && !Dashed(a[i + 1]) then i + 1 else -1)
    else OptionValue(a, spec, option, if TakesValue(spec, a[i]) then i + 2 else i + 1)
  }

  method OptionValueIndex(args: Args, spec: Spec, option: JsString) returns (index: int)
    ensures index == OptionValue(args, spec, option, 1)
    ensures index != -1 ==> 2 <= index < |args| && !Dashed(args[index])
  {
    index := 1;
    while index < |args|
      invariant 1 <= index && OptionValue(args, spec, option, 1) == OptionValue(args, spec, option, index)
    {
      if Dashed(args[index]) {
        if NameOf(args[index]) == option {
          if index + 1 < |args| && !Dashed(args[index + 1]) {
            index := index + 1;
            return;
          }
          return -1;
        }
        index := if TakesValue(spec, args[index]) then index + 2 else index + 1;
      } else {
        index := index + 1;
      }
    }
    return -1;
  }

  // ----- argument lists as items

  datatype Item = Flag(name: JsString) | Valued(name: JsString, value: JsString) | Positional(value: JsString)

  type Items = seq<Item>

  function PrintItem(item: Item): Args {
    match item
    case Flag(name) => [DASHES + name]
    case Valued(name, value) => [DASHES + name, value]
    case Positional(value) => [value]
  }

  function Print(items: Items): Args { if items == [] then [] else PrintItem(items[0]) + Print(items[1..]) }

  predicate ProperItem(spec: Spec, item: Item) {
    match item
    case Flag(name) => name !in spec.valueOptions
    case Valued(name, value) => name in spec.valueOptions && !Dashed(value)
    case Positional(value) => !Dashed(value)
  }

  predicate Proper(spec: Spec, items: Items) { forall i :: 0 <= i < |items| ==> ProperItem(spec, items[i]) }

  /** Every value option has a value that does not itself begin with dashes. */
  predicate WellPaired(spec: Spec, a: Args)
    decreases |a|
  {
    a == [] || (if TakesValue(spec, a[0]) then |a| >= 2 && !Dashed(a[1]) && WellPaired(spec, a[2..]) else WellPaired(spec, a[1..]))
  }

  function Parse(spec: Spec, a: Args): Items
    requires WellPaired(spec, a)
    decreases |a|
  {
    if a == [] then []
    else if TakesValue(spec, a[0]) then [Valued(NameOf(a[0]), a[1])] + Parse(spec, a[2..])
    else [if Dashed(a[0]) then Flag(NameOf(a[0])) else Positional(a[0])] + Parse(spec, a[1..])
  }

  lemma {:induction false} PrintParse(spec: Spec, a: Args)
    requires WellPaired(spec, a)
    ensures Proper(spec, Parse(spec, a)) && Print(Parse(spec, a)) == a
    decreases |a|
  {
    hide Print, Dashed, DASHES;
    if a == [] {
      PrintNothing();
    } else if TakesValue(spec, a[0]) {
      PrintParse(spec, a[2..]);
      DashedSplits(a[0]);
      PrintCons(Valued(NameOf(a[0]), a[1]), Parse(spec, a[2..]));
      assert a == [a[0], a[1]] + a[2..];
    } else {
      PrintParse(spec, a[1..]);
      var head := if Dashed(a[0]) then Flag(NameOf(a[0])) else Positional(a[0]);
      if Dashed(a[0]) { DashedSplits(a[0]); }
      PrintCons(head, Parse(spec, a[1..]));
      assert a == [a[0]] + a[1..];
    }
  }

  lemma PrintNothing()
    ensures Print([]) == []
  {
  }

  lemma DashedSplits(s: JsString)
    requires Dashed(s)
    ensures s == DASHES + NameOf(s)
  {
  }

  lemma {:induction false} ParsePrint(spec: Spec, items: Items)
    requires Proper(spec, items)
    ensures WellPaired(spec, Print(items)) && Parse(spec, Print(items)) == items
  {
    if items != [] {
      ParsePrint(spec, items[1..]);
      var a := Print(items);
      var head := items[0];
      if head.Valued? {
        assert a[0] == DASHES + head.name && NameOf(a[0]) == head.name && a[1] == head.value;
        assert a[2..] == Print(items[1..]);
      } else {
        assert a[1..] == Print(items[1..]);
        if head.Flag? { assert NameOf(DASHES + head.name) == head.name; }
      }
      assert items == [head] + items[1..];
    }
  }

  lemma {:induction false} PrintConcat(a: Items, b: Items)
    ensures Print(a + b) == Print(a) + Print(b)
  {
    if a == [] {
      assert a + b == b;
    } else {
      PrintConcat(a[1..], b);
      assert (a + b)[1..] == a[1..] + b && (a + b)[0] == a[0];
    }
  }

  /** Where the value of an item stands in the printed arguments. */
  function ValueOffset(items: Items, k: nat): nat
    requires k < |items| && !items[k].Flag?
  {
    |Print(items[..k])| + if items[k].Valued? then 1 else 0
  }

  function WithValue(item: Item, value: JsString): Item
    requires !item.Flag?
  {
    if item.Valued? then Valued(item.name, value) else Positional(value)
  }

  lemma PrintAt(items: Items, k: nat)
    requires k < |items|
    ensures Print(items) == Print(items[..k]) + (PrintItem(items[k]) + Print(items[k + 1..]))
  {
    hide Print, PrintItem;
    SplitAt(items, k);
    PrintConcat(items[..k], [items[k]] + items[k + 1..]);
    PrintCons(items[k], items[k + 1..]);
  }

  lemma SplitAt(items: Items, k: nat)
    requires k < |items|
    ensures items == items[..k] + ([items[k]] + items[k + 1..])
  {
  }

  lemma PrintCons(item: Item, back: Items)
    ensures Print([item] + back) == PrintItem(item) + Print(back)
  {
    assert ([item] + back)[1..] == back;
  }

  /** Changing one value in the items changes one argument. */
  lemma PrintUpdate(items: Items, k: nat, value: JsString)
    requires k < |items| && !items[k].Flag?
    ensures ValueOffset(items, k) < |Print(items)| && Print(items)[ValueOffset(items, k)] == items[k].value
    ensures Print(items[k := WithValue(items[k], value)]) == Print(items)[ValueOffset(items, k) := value]
  {
    hide Print;
    var changed := items[k := WithValue(items[k], value)];
    PrintAt(items, k);
    PrintAt(changed, k);
    assert changed[..k] == items[..k] && changed[k + 1..] == items[k + 1..];
  }

  // ----- the two scans, on items

  function FirstPositionalItem(items: Items): (k: int)
    ensures k == -1 || (0 <= k < |items| && items[k].Positional?)
    ensures forall i :: 0 <= i < |items| && items[i].Positional? ==> 0 <= k <= i
  {
    if items == [] then -1
    else if items[0].Positional? then 0
    else
      var k := FirstPositionalItem(items[1..]);
      assert forall i :: 1 <= i < |items| ==> items[i] == items[1..][i - 1];
      if k == -1 then -1 else k + 1
  }

  predicate IsOption(item: Item, option: JsString) { item.Valued? && item.name == option }

  function FirstValued(items: Items, option: JsString): (k: int)
    ensures k == -1 || (0 <= k < |items| && IsOption(items[k], option))
    ensures forall i :: 0 <= i < |items| && IsOption(items[i], option) ==> 0 <= k <= i
  {
    if items == [] then -1
    else if IsOption(items[0], option) then 0
    else
      var k := FirstValued(items[1..], option);
      assert forall i :: 1 <= i < |items| ==> items[i] == items[1..][i - 1];
      if k == -1 then -1 else k + 1
  }

  lemma Peel(pre: Args, items: Items)
    requires items != []
    ensures pre + Print(items) == (pre + PrintItem(items[0])) + Print(items[1..])
    ensures (pre + Print(items))[|pre|..] == Print(items)
    ensures |PrintItem(items[0])| <= |Print(items)| && forall i :: 0 <= i < |PrintItem(items[0])| ==>
                                                     (pre + Print(items))[|pre| + i] == PrintItem(items[0])[i]
  {
  }

  lemma OffsetShifts(items: Items, k: nat)
    requires 0 < k < |items| && !items[k].Flag?
    ensures ValueOffset(items, k) == |PrintItem(items[0])| + ValueOffset(items[1..], k - 1)
  {
    assert items[..k] == [items[0]] + items[1..][..k - 1];
  }

  lemma {:induction false} PositionalScan(spec: Spec, pre: Args, items: Items)
    requires Proper(spec, items)
    ensures var k := FirstPositionalItem(items);
            FirstPositional(pre + Print(items), spec, |pre|) == if k == -1 then -1 else |pre| + ValueOffset(items, k)
    decreases |items|
  {
    if items != [] {
      Peel(pre, items);
      var head := items[0];
      if !head.Positional? {
        assert NameOf(DASHES + head.name) == head.name;
        PositionalScan(spec, pre + PrintItem(head), items[1..]);
        if FirstPositionalItem(items) != -1 { OffsetShifts(items, FirstPositionalItem(items)); }
      }
    }
  }

  lemma {:induction false} OptionScan(spec: Spec, pre: Args, items: Items, option: JsString)
    requires Proper(spec, items) && option in spec.valueOptions
    ensures var k := FirstValued(items, option);
            OptionValue(pre + Print(items), spec, option, |pre|) == if k == -1 then -1 else |pre| + ValueOffset(items, k)
    decreases |items|
  {
    if items != [] {
      Peel(pre, items);
      var head := items[0];
      if !head.Positional? { assert NameOf(DASHES + head.name) == head.name; }
      if !IsOption(head, option) {
        OptionScan(spec, pre + PrintItem(head), items[1..], option);
        if FirstValued(items, option) != -1 { OffsetShifts(items, FirstValued(items, option)); }
      }
    }
  }

  // ----- what the client does

  function DefaultFor(spec: Spec, a: Args, option: JsString): Option<Path> {
    if option !in spec.optionDefaults then None
    else
      var d := spec.optionDefaults[option];
      if d.whenOption.Some? && OptionValue(a, spec, d.whenOption.value, 1) == -1 then None else Some(d.segments)
  }

  function WithPositional(a: Args, spec: Spec, wd: JsString): Args
    requires a != []
  {
    var i := FirstPositional(a, spec, 1);
    if !spec.pathPositional then a
    else if i == -1 then (if spec.positionalDefaults then [a[0], Resolve(wd, [])] + a[1..] else a)
    else if 0 <= i < |a| then a[i := Resolve(wd, a[i])]
    else a
  }

  function WithOption(a: Args, spec: Spec, wd: JsString, option: JsString): Args {
    var i := OptionValue(a, spec, option, 1);
    if i != -1 then (if 0 <= i < |a| then a[i := Resolve(wd, a[i])] else a)
    else
      var segments := DefaultFor(spec, a, option);
      if segments.Some? && DASHES + option !in a then a + [DASHES + option, Resolve(wd, Join(segments.value))] else a
  }

  function WithOptions(a: Args, spec: Spec, wd: JsString, options: seq<JsString>): Args
    decreases |options|
  {
    if options == [] then a else WithOptions(WithOption(a, spec, wd, options[0]), spec, wd, options[1..])
  }

  /** The client's rewriting, in place on a copy of the arguments. */
  method ResolveCallerLocalPaths(args: Args, spec: Spec, wd: JsString) returns (result: Args)
    requires args != []
    ensures result == WithOptions(WithPositional(args, spec, wd), spec, wd, spec.pathOptions)
  {
    result := args;
    if spec.pathPositional {
      var index := FirstPositionalIndex(result, spec);
      if index == -1 {
        if spec.positionalDefaults {
          result := result[..1] + [Resolve(wd, [])] + result[1..];
          assert result == [args[0], Resolve(wd, [])] + args[1..];
        }
      } else {
        result := result[index := Resolve(wd, result[index])];
      }
    }
    ghost var start := result;
    var o := 0;
    assert spec.pathOptions[0..] == spec.pathOptions;
    while o < |spec.pathOptions|
      invariant 0 <= o <= |spec.pathOptions|
      invariant WithOptions(result, spec, wd, spec.pathOptions[o..]) == WithOptions(start, spec, wd, spec.pathOptions)
    {
      var option := spec.pathOptions[o];
      assert spec.pathOptions[o..][0] == option && spec.pathOptions[o..][1..] == spec.pathOptions[o + 1..];
      var index := OptionValueIndex(result, spec, option);
      if index != -1 {
        result := result[index := Resolve(wd, result[index])];
      } else {
        var segments := DefaultFor(spec, result, option);
        if segments.Some? && DASHES + option !in result {
          result := result + [DASHES + option, Resolve(wd, Join(segments.value))];
        }
      }
      o := o + 1;
    }
  }

  // ----- what the Runtime accepts

  predicate PositionalAccepted(a: Args, spec: Spec) {
    var i := FirstPositional(a, spec, 1);
    spec.pathPositional ==> if 0 <= i < |a| then IsAbsolute(a[i]) else !spec.positionalDefaults
  }

  predicate OptionAccepted(a: Args, spec: Spec, option: JsString) {
    var i := OptionValue(a, spec, option, 1);
    if 0 <= i < |a| then IsAbsolute(a[i]) else DefaultFor(spec, a, option).None?
  }

  predicate Accepted(a: Args, spec: Spec) {
    PositionalAccepted(a, spec) && forall o :: o in spec.pathOptions ==> OptionAccepted(a, spec, o)
  }

  method AssertAbsoluteCallerLocalPaths(args: Args, spec: Spec) returns (ok: bool)
    ensures ok <==> Accepted(args, spec)
  {
    if spec.pathPositional {
      var index := FirstPositionalIndex(args, spec);
      if (index == -1 && spec.positionalDefaults) || (index != -1 && !IsAbsolute(args[index])) {
        return false;
      }
    }
    var o := 0;
    while o < |spec.pathOptions|
      invariant 0 <= o <= |spec.pathOptions| && PositionalAccepted(args, spec)
      invariant forall j :: 0 <= j < o ==> OptionAccepted(args, spec, spec.pathOptions[j])
    {
      var index := OptionValueIndex(args, spec, spec.pathOptions[o]);
      if (index == -1 && DefaultFor(spec, args, spec.pathOptions[o]).Some?) || (index != -1 && !IsAbsolute(args[index])) {
        assert !OptionAccepted(args, spec, spec.pathOptions[o]);
        return false;
      }
      o := o + 1;
    }
    return true;
  }

  // ----- the same rewriting, on items

  /** What the table of commands has to satisfy. */
  predicate SpecOk(spec: Spec) {
    && (forall o :: o in spec.pathOptions ==> o in spec.valueOptions)
    && (forall o :: o in spec.optionDefaults ==>
                      var w := spec.optionDefaults[o].whenOption;
                      w.Some? ==> w.value in spec.valueOptions && w.value !in spec.optionDefaults)
  }

  function DefaultSegments(spec: Spec, items: Items, option: JsString): Option<Path> {
    if option !in spec.optionDefaults then None
    else
      var d := spec.optionDefaults[option];
      if d.whenOption.Some? && FirstValued(items, d.whenOption.value) == -1 then None else Some(d.segments)
  }

  function Rewritten(items: Items, k: nat, wd: JsString): Items
    requires k < |items| && !items[k].Flag?
  {
    items[k := WithValue(items[k], Resolve(wd, items[k].value))]
  }

  function PositionalStep(spec: Spec, items: Items, wd: JsString): Items {
    var k := FirstPositionalItem(items);
    if !spec.pathPositional then items
    else if k == -1 then (if spec.positionalDefaults then [Positional(Resolve(wd, []))] + items else items)
    else Rewritten(items, k, wd)
  }

  function OptionStep(spec: Spec, items: Items, wd: JsString, option: JsString): Items {
    var k := FirstValued(items, option);
    if k != -1 then Rewritten(items, k, wd)
    else
      var segments := DefaultSegments(spec, items, option);
      if segments.Some? then items + [Valued(option, Resolve(wd, Join(segments.value)))] else items
  }

  function OptionSteps(spec: Spec, items: Items, wd: JsString, options: seq<JsString>): Items
    decreases |options|
  {
    if options == [] then items else OptionSteps(spec, OptionStep(spec, items, wd, options[0]), wd, options[1..])
  }

  function Resolved(spec: Spec, items: Items, wd: JsString): Items {
    OptionSteps(spec, PositionalStep(spec, items, wd), wd, spec.pathOptions)
  }

  lemma ResolvedValueIsProper(wd: JsString, value: JsString)
    ensures !Dashed(Resolve(wd, value))
  {
    hide Walk, Join, Split;
    assert Resolve(wd, value)[0] == SLASH && DASHES[0] == 0x2D;
  }

  lemma RewrittenProper(spec: Spec, items: Items, k: nat, wd: JsString)
    requires Proper(spec, items) && k < |items| && !items[k].Flag?
    ensures Proper(spec, Rewritten(items, k, wd))
  {
    ResolvedValueIsProper(wd, items[k].value);
  }

  lemma RewrittenPrints(cmd: JsString, items: Items, k: nat, wd: JsString)
    requires k < |items| && !items[k].Flag?
    ensures var a, i := [cmd] + Print(items), 1 + ValueOffset(items, k);
            i < |a| && a[i] == items[k].value && a[i := Resolve(wd, a[i])] == [cmd] + Print(Rewritten(items, k, wd))
  {
    hide Print, Resolve, ValueOffset;
    PrintUpdate(items, k, Resolve(wd, items[k].value));
  }

  lemma PositionalBridge(spec: Spec, cmd: JsString, items: Items, wd: JsString)
    requires Proper(spec, items)
    ensures Proper(spec, PositionalStep(spec, items, wd))
    ensures WithPositional([cmd] + Print(items), spec, wd) == [cmd] + Print(PositionalStep(spec, items, wd))
  {
    hide Resolve, ValueOffset, FirstPositional, FirstPositionalItem, Proper, Print, Rewritten;
    PositionalScan(spec, [cmd], items);
    var k := FirstPositionalItem(items);
    if spec.pathPositional {
      if k != -1 {
        RewrittenProper(spec, items, k, wd);
        RewrittenPrints(cmd, items, k, wd);
      } else if spec.positionalDefaults {
        ConsProper(spec, items, wd);
        PrintCons(Positional(Resolve(wd, [])), items);
        assert ([cmd] + Print(items))[1..] == Print(items);
      }
    }
  }

  lemma ConsProper(spec: Spec, items: Items, wd: JsString)
    requires Proper(spec, items)
    ensures Proper(spec, [Positional(Resolve(wd, []))] + items)
  {
    ResolvedValueIsProper(wd, []);
  }

  lemma SnocProper(spec: Spec, items: Items, wd: JsString, option: JsString, value: JsString)
    requires Proper(spec, items) && option in spec.valueOptions
    ensures Proper(spec, items + [Valued(option, Resolve(wd, value))])
  {
    ResolvedValueIsProper(wd, value);
  }

  /** An option without a value is not named anywhere in the arguments. */
  lemma {:induction false} NotNamed(spec: Spec, items: Items, option: JsString)
    requires Proper(spec, items) && option in spec.valueOptions && FirstValued(items, option) == -1
    ensures DASHES + option !in Print(items)
  {
    if items != [] {
      NotNamed(spec, items[1..], option);
      var head := items[0];
      assert Dashed(DASHES + option) && NameOf(DASHES + option) == option;
      if !head.Positional? { assert NameOf(DASHES + head.name) == head.name; }
      assert DASHES + option !in PrintItem(head);
    }
  }

  lemma NotNamedAtAll(spec: Spec, cmd: JsString, items: Items, option: JsString)
    requires Proper(spec, items) && option in spec.valueOptions && FirstValued(items, option) == -1 && !Dashed(cmd)
    ensures DASHES + option !in [cmd] + Print(items)
  {
    hide Print, FirstValued, Proper;
    NotNamed(spec, items, option);
  }

  lemma PrintSnoc(items: Items, option: JsString, value: JsString)
    ensures Print(items + [Valued(option, value)]) == Print(items) + [DASHES + option, value]
  {
    PrintConcat(items, [Valued(option, value)]);
  }

  lemma DefaultBridge(spec: Spec, cmd: JsString, items: Items, option: JsString)
    requires SpecOk(spec) && Proper(spec, items)
    ensures DefaultFor(spec, [cmd] + Print(items), option) == DefaultSegments(spec, items, option)
  {
    hide ValueOffset;
    if option in spec.optionDefaults && spec.optionDefaults[option].whenOption.Some? {
      OptionScan(spec, [cmd], items, spec.optionDefaults[option].whenOption.value);
    }
  }

  lemma OptionBridge(spec: Spec, cmd: JsString, items: Items, wd: JsString, option: JsString)
    requires SpecOk(spec) && Proper(spec, items) && option in spec.valueOptions && !Dashed(cmd)
    ensures Proper(spec, OptionStep(spec, items, wd, option))
    ensures WithOption([cmd] + Print(items), spec, wd, option) == [cmd] + Print(OptionStep(spec, items, wd, option))
  {
    hide Resolve, ValueOffset, OptionValue, Proper, SpecOk, DefaultFor, DefaultSegments, Print, FirstValued, Rewritten, Join;
    OptionScan(spec, [cmd], items, option);
    DefaultBridge(spec, cmd, items, option);
    var k := FirstValued(items, option);
    if k != -1 {
      RewrittenProper(spec, items, k, wd);
      RewrittenPrints(cmd, items, k, wd);
    } else {
      NotNamedAtAll(spec, cmd, items, option);
      var segments := DefaultSegments(spec, items, option);
      if segments.Some? {
        SnocProper(spec, items, wd, option, Join(segments.value));
        PrintSnoc(items, option, Resolve(wd, Join(segments.value)));
      }
    }
  }

  lemma {:induction false} OptionsBridge(spec: Spec, cmd: JsString, items: Items, wd: JsString, options: seq<JsString>)
    requires SpecOk(spec) && Proper(spec, items) && !Dashed(cmd) && forall o :: o in options ==> o in spec.valueOptions
    ensures Proper(spec, OptionSteps(spec, items, wd, options))
    ensures WithOptions([cmd] + Print(items), spec, wd, options) == [cmd] + Print(OptionSteps(spec, items, wd, options))
    decreases |options|
  {
    hide SpecOk, Proper, WithOption, OptionStep, Print;
    if options != [] {
      assert options[0] in options && forall o :: o in options[1..] ==> o in options;
      OptionBridge(spec, cmd, items, wd, options[0]);
      OptionsBridge(spec, cmd, OptionStep(spec, items, wd, options[0]), wd, options[1..]);
    }
  }

  /** The rewriting of the arguments is the rewriting of what they say. */
  lemma ResolvedArguments(spec: Spec, cmd: JsString, items: Items, wd: JsString)
    requires SpecOk(spec) && Proper(spec, items) && !Dashed(cmd)
    ensures Proper(spec, Resolved(spec, items, wd))
    ensures WithOptions(WithPositional([cmd] + Print(items), spec, wd), spec, wd, spec.pathOptions)
            == [cmd] + Print(Resolved(spec, items, wd))
  {
    hide Proper, WithOptions, OptionSteps, Print, PositionalStep, WithPositional;
    PositionalBridge(spec, cmd, items, wd);
    OptionsBridge(spec, cmd, PositionalStep(spec, items, wd), wd, spec.pathOptions);
  }

  // ----- how the scans see a changed argument list

  /** The list ends in a value option with no argument left for its value. */
  predicate Dangles(spec: Spec, a: Args, i: nat)
    decreases |a| - i
  {
    if i >= |a| then i > |a| else Dangles(spec, a, if TakesValue(spec, a[i]) then i + 2 else i + 1)
  }

  predicate SameShape(a: Args, b: Args) {
    |a| == |b| && forall j :: 0 <= j < |a| ==> a[j] == b[j] || (!Dashed(a[j]) && !Dashed(b[j]))
  }

  lemma {:induction false} SameShapeScans(spec: Spec, a: Args, b: Args, option: JsString, i: nat)
    requires SameShape(a, b)
    ensures FirstPositional(a, spec, i) == FirstPositional(b, spec, i)
    ensures OptionValue(a, spec, option, i) == OptionValue(b, spec, option, i)
    ensures Dangles(spec, a, i) == Dangles(spec, b, i)
    decreases |a| - i
  {
    if i < |a| {
      SameShapeScans(spec, a, b, option, i + 1);
      SameShapeScans(spec, a, b, option, i + 2);
    }
  }

  /** A positional put in front moves everything one place on. */
  lemma {:induction false} InsertedScans(spec: Spec, a: Args, p: JsString, option: JsString, i: nat)
    requires 1 <= i && a != []
    ensures var b, v := [a[0], p] + a[1..], OptionValue(a, spec, option, i);
            && OptionValue(b, spec, option, i + 1) == (if v == -1 then -1 else v + 1)
            && Dangles(spec, b, i + 1) == Dangles(spec, a, i)
    decreases |a| - i
  {
    var b := [a[0], p] + a[1..];
    if i < |a| {
      assert b[i + 1] == a[i] && (i + 1 < |a| ==> b[i + 2] == a[i + 1]);
      InsertedScans(spec, a, p, option, i + 1);
      InsertedScans(spec, a, p, option, i + 2);
    }
  }

  function Longer(a: Args, option: JsString, value: JsString): Args { a + [DASHES + option, value] }

  lemma DashedName(option: JsString)
    ensures Dashed(DASHES + option) && NameOf(DASHES + option) == option
  {
  }

  /** An option added at the end changes no other option's value. */
  lemma {:induction false} LongerOther(spec: Spec, a: Args, option: JsString, value: JsString, other: JsString, i: nat)
    requires option in spec.valueOptions && !Dashed(value) && other != option
    ensures OptionValue(Longer(a, option, value), spec, other, i) == OptionValue(a, spec, other, i)
    decreases |a| - i
  {
    DashedName(option);
    if i < |a| {
      assert Longer(a, option, value)[i] == a[i];
      LongerOther(spec, a, option, value, other, i + 1);
      LongerOther(spec, a, option, value, other, i + 2);
    }
  }

  /** It is read as an option exactly when the list did not end in a value option without its
      value; otherwise its name is taken for that value and its own value for a positional. */
  lemma {:induction false} LongerOwn(spec: Spec, a: Args, option: JsString, value: JsString, i: nat)
    requires option in spec.valueOptions && !Dashed(value) && DASHES + option !in a && i <= |a| + 1
    ensures var b := Longer(a, option, value);
            && OptionValue(b, spec, option, i) == (if Dangles(spec, a, i) then -1 else |a| + 1)
            && FirstPositional(b, spec, i) == (if FirstPositional(a, spec, i) != -1 then FirstPositional(a, spec, i)
                                               else if Dangles(spec, a, i) then |a| + 1 else -1)
            && !Dangles(spec, b, i)
    decreases |a| - i
  {
    DashedName(option);
    var b := Longer(a, option, value);
    if i < |a| {
      assert b[i] == a[i];
      assert Dashed(a[i]) ==> a[i] == DASHES + NameOf(a[i]);
      LongerOwn(spec, a, option, value, i + 1);
      if i + 2 <= |a| + 1 { LongerOwn(spec, a, option, value, i + 2); }
    }
  }

  lemma {:induction false} ValueStands(spec: Spec, a: Args, option: JsString, i: nat)
    ensures var k := OptionValue(a, spec, option, i);
            k == -1 || (i < k < |a| && !Dashed(a[k]) && a[k - 1] == DASHES + option)
    decreases |a| - i
  {
    if i < |a| {
      assert Dashed(a[i]) && NameOf(a[i]) == option ==> a[i] == DASHES + option;
      ValueStands(spec, a, option, i + 1);
      ValueStands(spec, a, option, i + 2);
    }
  }

  lemma {:induction false} PositionalStands(spec: Spec, a: Args, i: nat)
    ensures var k := FirstPositional(a, spec, i);
            k == -1 || (i <= k < |a| && !Dashed(a[k]))
    decreases |a| - i
  {
    if i < |a| {
      PositionalStands(spec, a, i + 1);
      PositionalStands(spec, a, i + 2);
    }
  }

  // ----- settled argument lists

  ghost predicate Stable(value: JsString) { IsAbsolute(value) && forall w :: Resolve(w, value) == value }

  lemma ResolvedIsStable(wd: JsString, value: JsString)
    ensures Stable(Resolve(wd, value)) && !Dashed(Resolve(wd, value))
  {
    ResolvedValueIsProper(wd, value);
    ResolveTwice(wd, wd, value);
    forall w
      ensures Resolve(w, Resolve(wd, value)) == Resolve(wd, value)
    {
      ResolveTwice(wd, w, value);
    }
  }

  ghost predicate PositionalSettled(spec: Spec, a: Args) {
    var k := FirstPositional(a, spec, 1);
    spec.pathPositional ==> if 0 <= k < |a| then Stable(a[k]) else !spec.positionalDefaults
  }

  /** The client has nothing more to do for the option. */
  ghost predicate OptionSettled(spec: Spec, a: Args, option: JsString) {
    var k := OptionValue(a, spec, option, 1);
    if 0 <= k < |a| then Stable(a[k]) else DefaultFor(spec, a, option).None? || DASHES + option in a
  }

  /** The option needs no default, or has a value that can be read, or can be given its default:
      its name stands nowhere and the list does not end in a value option without its value. */
  predicate DefaultFits(spec: Spec, a: Args, option: JsString) {
    DefaultFor(spec, a, option).Some? ==>
      OptionValue(a, spec, option, 1) != -1 || (DASHES + option !in a && !Dangles(spec, a, 1))
  }

  predicate Distinct(options: seq<JsString>) { forall i, j :: 0 <= i < j < |options| ==> options[i] != options[j] }

  lemma RewrittenShape(a: Args, k: nat, wd: JsString)
    requires k < |a| && !Dashed(a[k])
    ensures SameShape(a, a[k := Resolve(wd, a[k])])
  {
    ResolvedIsStable(wd, a[k]);
  }

  /** What one option's step leaves alone. */
  lemma StepLeavesScan(spec: Spec, a: Args, wd: JsString, option: JsString, other: JsString)
    requires option in spec.valueOptions && (other != option || option !in spec.optionDefaults)
    ensures OptionValue(WithOption(a, spec, wd, option), spec, other, 1) == OptionValue(a, spec, other, 1)
  {
    hide Resolve, Stable;
    var k := OptionValue(a, spec, option, 1);
    ValueStands(spec, a, option, 1);
    if k != -1 {
      RewrittenShape(a, k, wd);
      SameShapeScans(spec, a, a[k := Resolve(wd, a[k])], other, 1);
    } else if DefaultFor(spec, a, option).Some? {
      var value := Resolve(wd, Join(DefaultFor(spec, a, option).value));
      ResolvedIsStable(wd, Join(DefaultFor(spec, a, option).value));
      if other != option { LongerOther(spec, a, option, value, other, 1); }
    }
  }

  lemma StepLeavesDefault(spec: Spec, a: Args, wd: JsString, option: JsString, other: JsString)
    requires SpecOk(spec) && option in spec.valueOptions
    ensures DefaultFor(spec, WithOption(a, spec, wd, option), other) == DefaultFor(spec, a, other)
  {
    hide OptionValue, WithOption;
    if other in spec.optionDefaults && spec.optionDefaults[other].whenOption.Some? {
      StepLeavesScan(spec, a, wd, option, spec.optionDefaults[other].whenOption.value);
    }
  }

  lemma StepLeavesOther(spec: Spec, a: Args, wd: JsString, option: JsString, other: JsString)
    requires SpecOk(spec) && option in spec.valueOptions && other != option
    ensures var b, k := WithOption(a, spec, wd, option), OptionValue(a, spec, other, 1);
            && OptionValue(b, spec, other, 1) == k && DefaultFor(spec, b, other) == DefaultFor(spec, a, other)
            && (0 <= k < |a| ==> k < |b| && b[k] == a[k])
            && (DASHES + other in b <==> DASHES + other in a)
  {
    hide Resolve, Stable, OptionValue, DefaultFor, SpecOk, Dashed;
    StepLeavesScan(spec, a, wd, option, other);
    StepLeavesDefault(spec, a, wd, option, other);
    ValueStands(spec, a, option, 1);
    ValueStands(spec, a, other, 1);
    DashedName(other);
    assert (DASHES + other)[2..] == other && (DASHES + option)[2..] == option;
    var k := OptionValue(a, spec, option, 1);
    if k != -1 {
      ResolvedIsStable(wd, a[k]);
      OneChanged(a, k, Resolve(wd, a[k]), DASHES + other);
    } else if DefaultFor(spec, a, option).Some? {
      ResolvedIsStable(wd, Join(DefaultFor(spec, a, option).value));
    }
  }

  lemma OneChanged(a: Args, k: nat, value: JsString, name: JsString)
    requires k < |a| && a[k] != name && value != name
    ensures name in a[k := value] <==> name in a
  {
    if name in a {
      var j :| 0 <= j < |a| && a[j] == name;
      assert a[k := value][j] == name;
    }
  }

  lemma SettledLeft(spec: Spec, a: Args, wd: JsString, option: JsString, other: JsString)
    requires SpecOk(spec) && option in spec.valueOptions && other != option
    ensures var b := WithOption(a, spec, wd, option);
            && (OptionSettled(spec, a, other) ==> OptionSettled(spec, b, other))
            && (OptionAccepted(b, spec, other) <==> OptionAccepted(a, spec, other))
  {
    hide Stable, OptionValue, DefaultFor, SpecOk, WithOption;
    StepLeavesOther(spec, a, wd, option, other);
    ValueStands(spec, a, other, 1);
  }

  /** After its step an option is settled, and accepted exactly when its default fitted. */
  lemma StepSettles(spec: Spec, a: Args, wd: JsString, option: JsString)
    requires SpecOk(spec) && option in spec.valueOptions
    ensures var b := WithOption(a, spec, wd, option);
            && OptionSettled(spec, b, option) && (OptionAccepted(b, spec, option) <==> DefaultFits(spec, a, option))
            && (Dangles(spec, b, 1) ==> Dangles(spec, a, 1))
            && (Dangles(spec, a, 1) && !Dangles(spec, b, 1) ==> !DefaultFits(spec, a, option))
  {
    hide Resolve, OptionValue, DefaultFor, SpecOk, Dashed, Dangles, FirstPositional;
    StepLeavesDefault(spec, a, wd, option, option);
    ValueStands(spec, a, option, 1);
    var k := OptionValue(a, spec, option, 1);
    if k != -1 {
      ResolvedIsStable(wd, a[k]);
      RewrittenShape(a, k, wd);
      SameShapeScans(spec, a, a[k := Resolve(wd, a[k])], option, 1);
    } else if DefaultFor(spec, a, option).Some? && DASHES + option !in a {
      var text := Join(DefaultFor(spec, a, option).value);
      ResolvedIsStable(wd, text);
      LongerOwn(spec, a, option, Resolve(wd, text), 1);
      var b := Longer(a, option, Resolve(wd, text));
      assert b[|a|] == DASHES + option && b[|a| + 1] == Resolve(wd, text);
    }
  }

  lemma StepKeepsPositional(spec: Spec, a: Args, wd: JsString, option: JsString)
    requires option in spec.valueOptions && PositionalSettled(spec, a)
    ensures PositionalSettled(spec, WithOption(a, spec, wd, option))
  {
    hide Resolve, Stable, OptionValue, DefaultFor, Dashed, Dangles, FirstPositional;
    ValueStands(spec, a, option, 1);
    PositionalStands(spec, a, 1);
    var k := OptionValue(a, spec, option, 1);
    if k != -1 {
      ResolvedIsStable(wd, a[k]);
      RewrittenShape(a, k, wd);
      SameShapeScans(spec, a, a[k := Resolve(wd, a[k])], option, 1);
    } else if DefaultFor(spec, a, option).Some? && DASHES + option !in a {
      var text := Join(DefaultFor(spec, a, option).value);
      ResolvedIsStable(wd, text);
      LongerOwn(spec, a, option, Resolve(wd, text), 1);
    }
  }

  // ----- the path contract

  lemma {:induction false} StepsLeaveOther(spec: Spec, a: Args, wd: JsString, options: seq<JsString>, other: JsString)
    requires SpecOk(spec) && other !in options && forall o :: o in options ==> o in spec.valueOptions
    ensures var r := WithOptions(a, spec, wd, options);
            && (OptionSettled(spec, a, other) ==> OptionSettled(spec, r, other))
            && (OptionAccepted(r, spec, other) <==> OptionAccepted(a, spec, other))
    decreases |options|
  {
    hide SpecOk, WithOption, OptionSettled, OptionAccepted;
    if options != [] {
      assert options[0] in options;
      SettledLeft(spec, a, wd, options[0], other);
      StepsLeaveOther(spec, WithOption(a, spec, wd, options[0]), wd, options[1..], other);
    }
  }

  ghost predicate AllSettled(spec: Spec, a: Args, options: seq<JsString>) { forall o :: o in options ==> OptionSettled(spec, a, o) }

  predicate AllAccepted(spec: Spec, a: Args, options: seq<JsString>) { forall o :: o in options ==> OptionAccepted(a, spec, o) }

  predicate AllFit(spec: Spec, a: Args, options: seq<JsString>) { forall o :: o in options ==> DefaultFits(spec, a, o) }

  /** A step that fits leaves what the others need; one that does not has settled the matter. */
  lemma StepLeavesFits(spec: Spec, a: Args, wd: JsString, option: JsString, rest: seq<JsString>)
    requires SpecOk(spec) && option in spec.valueOptions && option !in rest
    ensures AllFit(spec, a, [option] + rest) <==>
            DefaultFits(spec, a, option) && AllFit(spec, WithOption(a, spec, wd, option), rest)
  {
    hide SpecOk, OptionValue, WithOption, OptionSettled, OptionAccepted, DefaultFor, Dangles;
    StepSettles(spec, a, wd, option);
    var b := WithOption(a, spec, wd, option);
    assert forall o :: o in [option] + rest <==> o == option || o in rest;
    if DefaultFits(spec, a, option) {
      forall o | o in rest
        ensures DefaultFits(spec, b, o) <==> DefaultFits(spec, a, o)
      {
        StepLeavesOther(spec, a, wd, option, o);
      }
    }
  }

  lemma {:induction false} StepsSettle(spec: Spec, a: Args, wd: JsString, options: seq<JsString>)
    requires SpecOk(spec) && Distinct(options) && forall o :: o in options ==> o in spec.valueOptions
    ensures var r := WithOptions(a, spec, wd, options);
            && AllSettled(spec, r, options) && (AllAccepted(spec, r, options) <==> AllFit(spec, a, options))
            && (PositionalSettled(spec, a) ==> PositionalSettled(spec, r))
    decreases |options|
  {
    hide SpecOk, WithOption, OptionSettled, OptionAccepted, DefaultFits, PositionalSettled;
    if options != [] {
      var option, rest := options[0], options[1..];
      assert options == [option] + rest && option in options;
      assert option !in rest && Distinct(rest);
      var b := WithOption(a, spec, wd, option);
      StepSettles(spec, a, wd, option);
      StepLeavesFits(spec, a, wd, option, rest);
      if PositionalSettled(spec, a) { StepKeepsPositional(spec, a, wd, option); }
      StepsSettle(spec, b, wd, rest);
      StepsLeaveOther(spec, b, wd, rest, option);
      assert forall o :: o in options <==> o == option || o in rest;
    }
  }

  lemma PositionalSettles(spec: Spec, a: Args, wd: JsString, options: seq<JsString>)
    requires a != []
    ensures var b := WithPositional(a, spec, wd);
            PositionalSettled(spec, b) && (AllFit(spec, b, options) <==> AllFit(spec, a, options))
  {
    hide Resolve, Stable, OptionValue, Dangles, FirstPositional;
    PositionalStands(spec, a, 1);
    var b := WithPositional(a, spec, wd);
    PositionalFirst(spec, a, wd);
    forall o
      ensures DefaultFits(spec, b, o) <==> DefaultFits(spec, a, o)
    {
      PositionalLeaves(spec, a, wd, o);
      var w := if o in spec.optionDefaults then spec.optionDefaults[o].whenOption else None;
      if w.Some? { PositionalLeaves(spec, a, wd, w.value); }
    }
  }

  lemma PositionalFirst(spec: Spec, a: Args, wd: JsString)
    requires a != []
    ensures PositionalSettled(spec, WithPositional(a, spec, wd))
  {
    hide Resolve, Stable, OptionValue, Dangles;
    PositionalStands(spec, a, 1);
    var k := FirstPositional(a, spec, 1);
    if spec.pathPositional {
      if k != -1 {
        ResolvedIsStable(wd, a[k]);
        RewrittenShape(a, k, wd);
        SameShapeScans(spec, a, a[k := Resolve(wd, a[k])], [], 1);
      } else {
        ResolvedIsStable(wd, []);
      }
    }
  }

  lemma PositionalLeaves(spec: Spec, a: Args, wd: JsString, option: JsString)
    requires a != []
    ensures var b := WithPositional(a, spec, wd);
            && (OptionValue(b, spec, option, 1) == -1 <==> OptionValue(a, spec, option, 1) == -1)
            && Dangles(spec, b, 1) == Dangles(spec, a, 1) && (DASHES + option in b <==> DASHES + option in a)
  {
    hide Resolve, Stable;
    PositionalStands(spec, a, 1);
    DashedName(option);
    ValueStands(spec, a, option, 1);
    var k := FirstPositional(a, spec, 1);
    if spec.pathPositional {
      if k != -1 {
        ResolvedIsStable(wd, a[k]);
        RewrittenShape(a, k, wd);
        SameShapeScans(spec, a, a[k := Resolve(wd, a[k])], option, 1);
        OneChanged(a, k, Resolve(wd, a[k]), DASHES + option);
      } else if spec.positionalDefaults {
        ResolvedIsStable(wd, []);
        InsertedScans(spec, a, Resolve(wd, []), option, 1);
        assert a == [a[0]] + a[1..];
      }
    }
  }

  lemma {:induction false} SettledStays(spec: Spec, a: Args, wd: JsString, options: seq<JsString>)
    requires a != [] && PositionalSettled(spec, a) && AllSettled(spec, a, options)
    ensures WithPositional(a, spec, wd) == a && WithOptions(a, spec, wd, options) == a
    decreases |options|
  {
    hide Resolve, OptionValue, FirstPositional, DefaultFor;
    PositionalStands(spec, a, 1);
    if options != [] {
      assert OptionSettled(spec, a, options[0]);
      ValueStands(spec, a, options[0], 1);
      assert WithOption(a, spec, wd, options[0]) == a;
      SettledStays(spec, a, wd, options[1..]);
    }
  }

  /** The path contract: of what the client resolved the Runtime accepts exactly the argument
      lists whose missing path options can be given their defaults, and resolving again changes
      nothing, whatever the list. */
  lemma PathContract(spec: Spec, args: Args, here: JsString, there: JsString)
    requires SoundSpec(spec) && args != []
    ensures var r := WithOptions(WithPositional(args, spec, here), spec, here, spec.pathOptions);
            && r != [] && (Accepted(r, spec) <==> AllFit(spec, args, spec.pathOptions))
            && WithOptions(WithPositional(r, spec, there), spec, there, spec.pathOptions) == r
  {
    hide SpecOk, WithOptions, WithPositional, OptionAccepted, DefaultFits, OptionSettled, Resolve;
    var b := WithPositional(args, spec, here);
    SentCommand(args, spec, here);
    PositionalSettles(spec, args, here, spec.pathOptions);
    PathsTakeValues(spec);
    StepsSettle(spec, b, here, spec.pathOptions);
    var r := WithOptions(b, spec, here, spec.pathOptions);
    SettledStays(spec, r, there, spec.pathOptions);
    PositionalStands(spec, r, 1);
  }

  lemma PathsTakeValues(spec: Spec)
    requires SpecOk(spec)
    ensures forall o :: o in spec.pathOptions ==> o in spec.valueOptions
  {
  }

  /** Nothing is amiss with an argument list that gives every value option its value. */
  lemma {:induction false} WellPairedScans(spec: Spec, a: Args, option: JsString, i: nat)
    requires i <= |a| && WellPaired(spec, a[i..]) && option in spec.valueOptions
    ensures !Dangles(spec, a, i) && (OptionValue(a, spec, option, i) == -1 ==> DASHES + option !in a[i..])
    decreases |a| - i
  {
    DashedName(option);
    if i < |a| {
      assert a[i..][0] == a[i] && a[i..][1..] == a[i + 1..];
      assert Dashed(a[i]) && NameOf(a[i]) == option ==> a[i] == DASHES + option;
      if TakesValue(spec, a[i]) {
        assert a[i..][1] == a[i + 1] && a[i..][2..] == a[i + 2..] && a[i..] == [a[i], a[i + 1]] + a[i + 2..];
        WellPairedScans(spec, a, option, i + 2);
      } else {
        assert a[i..] == [a[i]] + a[i + 1..];
        WellPairedScans(spec, a, option, i + 1);
      }
    }
  }

  lemma WellPairedFits(spec: Spec, a: Args)
    requires SpecOk(spec) && a != [] && !Dashed(a[0]) && WellPaired(spec, a[1..])
    ensures AllFit(spec, a, spec.pathOptions)
  {
    hide OptionValue, Dangles, DefaultFor, WellPaired;
    forall o | o in spec.pathOptions
      ensures DefaultFits(spec, a, o)
    {
      WellPairedScans(spec, a, o, 1);
      DashedName(o);
      assert a == [a[0]] + a[1..];
    }
  }

  // ----- nothing but paths changes

  /** The item is one the table calls a path: the first positional, or the first value of a path option. */
  predicate IsPath(spec: Spec, items: Items, i: nat, options: seq<JsString>)
    requires i < |items|
  {
    || (spec.pathPositional && i == FirstPositionalItem(items))
    || (items[i].Valued? && items[i].name in options && i == FirstValued(items, items[i].name))
  }

  function Lead(spec: Spec, items: Items, wd: JsString): Items {
    if spec.pathPositional && spec.positionalDefaults && FirstPositionalItem(items) == -1 then [Positional(Resolve(wd, []))] else []
  }

  /** Every item is kept in place and unchanged, except that exactly the paths are resolved. */
  ghost predicate Keeps(spec: Spec, before: Items, after: Items, wd: JsString, options: seq<JsString>) {
    && |after| >= |before|
    && forall i :: 0 <= i < |before| ==>
                     if IsPath(spec, before, i, options) then after[i] == WithValue(before[i], Resolve(wd, before[i].value))
                     else after[i] == before[i]
  }

  /** Whatever is added names an option that was not there, with its default. */
  ghost predicate Adds(spec: Spec, before: Items, after: Items, wd: JsString, options: seq<JsString>) {
    forall i :: |before| <= i < |after| ==> IsDefault(spec, before, after[i], wd, options)
  }

  ghost predicate IsDefault(spec: Spec, before: Items, item: Item, wd: JsString, options: seq<JsString>) {
    && item.Valued? && item.name in options && FirstValued(before, item.name) == -1 && item.name in spec.optionDefaults
    && item.value == Resolve(wd, Join(spec.optionDefaults[item.name].segments))
  }

  /** The first option scan of a list that keeps and adds this way. */
  lemma ScanAfter(spec: Spec, before: Items, after: Items, wd: JsString, done: seq<JsString>, option: JsString)
    requires Keeps(spec, before, after, wd, done) && Adds(spec, before, after, wd, done) && option !in done
    ensures FirstValued(after, option) == FirstValued(before, option)
    ensures FirstPositionalItem(after) == FirstPositionalItem(before)
  {
    hide Resolve;
    assert forall i :: 0 <= i < |before| ==> (IsOption(after[i], option) <==> IsOption(before[i], option));
    assert forall i :: 0 <= i < |before| ==> (after[i].Positional? <==> before[i].Positional?);
    assert forall i :: |before| <= i < |after| ==> IsDefault(spec, before, after[i], wd, done);
  }

  lemma OptionStepKeeps(spec: Spec, before: Items, after: Items, wd: JsString, done: seq<JsString>, option: JsString)
    requires Keeps(spec, before, after, wd, done) && Adds(spec, before, after, wd, done) && option !in done
    ensures var r := OptionStep(spec, after, wd, option);
            Keeps(spec, before, r, wd, done + [option]) && Adds(spec, before, r, wd, done + [option])
  {
    hide Resolve;
    ScanAfter(spec, before, after, wd, done, option);
    var k := FirstValued(before, option);
    var r := OptionStep(spec, after, wd, option);
    forall i | 0 <= i < |before|
      ensures if IsPath(spec, before, i, done + [option]) then r[i] == WithValue(before[i], Resolve(wd, before[i].value))
              else r[i] == before[i]
    {
      assert IsPath(spec, before, i, done + [option]) <==> IsPath(spec, before, i, done) || i == k;
    }
    forall i | |before| <= i < |r|
      ensures IsDefault(spec, before, r[i], wd, done + [option])
    {
      assert i < |after| ==> IsDefault(spec, before, after[i], wd, done) && r[i] == after[i];
    }
  }

  lemma {:induction false} OptionStepsKeep(spec: Spec, before: Items, after: Items, wd: JsString, done: seq<JsString>, options: seq<JsString>)
    requires Keeps(spec, before, after, wd, done) && Adds(spec, before, after, wd, done)
    requires forall i, j :: 0 <= i < j < |done + options| ==> (done + options)[i] != (done + options)[j]
    ensures var r := OptionSteps(spec, after, wd, options);
            Keeps(spec, before, r, wd, done + options) && Adds(spec, before, r, wd, done + options)
    decreases |options|
  {
    hide Keeps, Adds, OptionStep;
    if options == [] {
      assert done + options == done;
    } else {
      assert options[0] !in done by {
        assert forall i :: 0 <= i < |done| ==> (done + options)[i] == done[i];
        assert (done + options)[|done|] == options[0];
      }
      OptionStepKeeps(spec, before, after, wd, done, options[0]);
      assert done + [options[0]] + options[1..] == done + options;
      OptionStepsKeep(spec, before, OptionStep(spec, after, wd, options[0]), wd, done + [options[0]], options[1..]);
    }
  }

  /** The client resolves exactly the path arguments and adds only defaults; no flag, no other
      value and no order changes. */
  lemma OnlyPathsChange(spec: Spec, items: Items, wd: JsString)
    requires Distinct(spec.pathOptions)
    ensures var lead, r := Lead(spec, items, wd), Resolved(spec, items, wd);
            && lead <= r
            && Keeps(spec, items, r[|lead|..], wd, spec.pathOptions) && Adds(spec, items, r[|lead|..], wd, spec.pathOptions)
  {
    hide Resolve, Keeps, Adds;
    var lead := Lead(spec, items, wd);
    if lead == [] {
      PositionalKeeps(spec, items, wd);
      OptionStepsKeep(spec, items, PositionalStep(spec, items, wd), wd, [], spec.pathOptions);
      assert [] + spec.pathOptions == spec.pathOptions;
      assert Resolved(spec, items, wd)[0..] == Resolved(spec, items, wd);
    } else {
      PositionalKeeps(spec, items, wd);
      LeadStays(spec, lead[0], items, wd, spec.pathOptions);
      OptionStepsKeep(spec, items, items, wd, [], spec.pathOptions);
      assert [] + spec.pathOptions == spec.pathOptions;
      assert ([lead[0]] + OptionSteps(spec, items, wd, spec.pathOptions))[1..] == OptionSteps(spec, items, wd, spec.pathOptions);
    }
  }

  lemma PositionalKeeps(spec: Spec, items: Items, wd: JsString)
    ensures var after := if Lead(spec, items, wd) == [] then PositionalStep(spec, items, wd) else items;
            Keeps(spec, items, after, wd, []) && Adds(spec, items, after, wd, [])
  {
    hide Resolve;
  }

  /** A positional in front is out of the options' way. */
  lemma {:induction false} LeadStays(spec: Spec, lead: Item, items: Items, wd: JsString, options: seq<JsString>)
    requires lead.Positional?
    ensures OptionSteps(spec, [lead] + items, wd, options) == [lead] + OptionSteps(spec, items, wd, options)
    decreases |options|
  {
    hide Resolve;
    if options != [] {
      forall o
        ensures FirstValued([lead] + items, o) == if FirstValued(items, o) == -1 then -1 else FirstValued(items, o) + 1
      {
        assert ([lead] + items)[1..] == items;
      }
      var next := OptionStep(spec, items, wd, options[0]);
      assert OptionStep(spec, [lead] + items, wd, options[0]) == [lead] + next;
      LeadStays(spec, lead, next, wd, options[1..]);
    }
  }

  // ----- the commands

  const NONE: map<JsString, Default> := map[]

  const NAME := Js("name")
  const PROJECT := Js("project")
  const OUTPUT := Js("output")
  const ROOT := Js("root")
  const MANIFEST := Js("manifest")
  const FILE := Js("file")
  const DIRECTORY := Js("directory")
  const CLIENT := Js("client")
  const CONTRACT := Js("contract")
  const APPROVE := Js("approve")

  const HERE := Spec([], [], true, true, NONE)
  const UNINSTALL := Spec([APPROVE], [], true, true, NONE)
  const PROJECT_IMPORT := Spec([NAME], [], true, true, NONE)
  const PROJECT_BACKUP := Spec([PROJECT, OUTPUT], [OUTPUT], false, false, NONE)
  const PROJECT_RESTORE := Spec([ROOT], [ROOT], true, false, map[ROOT := Default([], None)])
  const OFFICE_VALIDATE := Spec([MANIFEST, FILE, ROOT], [FILE, ROOT], false, false, map[ROOT := Default([], Some(FILE))])
  const OFFICE_APPLY := Spec([PROJECT, MANIFEST, FILE], [FILE], false, false, NONE)
  const AGENT_SYNC := Spec([PROJECT, DIRECTORY], [DIRECTORY], false, false, map[DIRECTORY := Default([Js("agents")], None)])
  const CLIENT_INSPECT := Spec([CLIENT, ROOT], [ROOT], false, false, NONE)
  const CLIENT_PLAN := Spec([CLIENT, ROOT, CONTRACT], [ROOT], false, false, NONE)
  const CLIENT_APPLY := Spec([CLIENT, ROOT, CONTRACT, APPROVE], [ROOT], false, false, NONE)
  const CLIENT_UNINSTALL := Spec([CLIENT, ROOT, APPROVE], [ROOT], false, false, NONE)

  function SpecOf(command: JsString): Option<Spec> {
    if command in {Js("install"), Js("status"), Js("next")} then Some(HERE)
    else if command == Js("uninstall") then Some(UNINSTALL)
    else if command == Js("project:import") then Some(PROJECT_IMPORT)
    else if command == Js("project:backup") then Some(PROJECT_BACKUP)
    else if command == Js("project:restore") then Some(PROJECT_RESTORE)
    else if command == Js("office:validate") then Some(OFFICE_VALIDATE)
    else if command == Js("office:apply") then Some(OFFICE_APPLY)
    else if command == Js("agent:sync") then Some(AGENT_SYNC)
    else if command in {Js("client:inspect"), Js("client:validate")} then Some(CLIENT_INSPECT)
    else if command == Js("client:plan") then Some(CLIENT_PLAN)
    else if command == Js("client:apply") then Some(CLIENT_APPLY)
    else if command == Js("client:uninstall") then Some(CLIENT_UNINSTALL)
    else None
  }

  predicate SoundSpec(spec: Spec) {
    SpecOk(spec) && Distinct(spec.pathOptions)
  }

  lemma PlainSpecsAreSound()
    ensures SoundSpec(HERE) && SoundSpec(UNINSTALL) && SoundSpec(PROJECT_IMPORT) && SoundSpec(PROJECT_BACKUP)
    ensures SoundSpec(OFFICE_APPLY) && SoundSpec(CLIENT_INSPECT) && SoundSpec(CLIENT_PLAN)
    ensures SoundSpec(CLIENT_APPLY) && SoundSpec(CLIENT_UNINSTALL)
  {
  }

  lemma DefaultingSpecsAreSound()
    ensures SoundSpec(PROJECT_RESTORE) && SoundSpec(OFFICE_VALIDATE) && SoundSpec(AGENT_SYNC)
  {
    assert FILE[0] == 'f' as int && ROOT[0] == 'r' as int;
  }

  lemma TableIsSound(command: JsString)
    requires SpecOf(command).Some?
    ensures SoundSpec(SpecOf(command).value) && !Dashed(command)
  {
    hide SoundSpec, Js, Dashed;
    PlainSpecsAreSound();
    DefaultingSpecsAreSound();
    CommandsAreNotDashed(command);
  }

  lemma CommandsAreNotDashed(command: JsString)
    requires SpecOf(command).Some?
    ensures !Dashed(command)
  {
    assert Js("install")[0] == 'i' as int && Js("status")[0] == 's' as int && Js("next")[0] == 'n' as int;
    assert Js("uninstall")[0] == 'u' as int && Js("project:import")[0] == 'p' as int && Js("project:backup")[0] == 'p' as int;
    assert Js("project:restore")[0] == 'p' as int && Js("office:validate")[0] == 'o' as int && Js("office:apply")[0] == 'o' as int;
    assert Js("agent:sync")[0] == 'a' as int && Js("client:inspect")[0] == 'c' as int && Js("client:validate")[0] == 'c' as int;
    assert Js("client:plan")[0] == 'c' as int && Js("client:apply")[0] == 'c' as int && Js("client:uninstall")[0] == 'c' as int;
    assert command[0] != 0x2D;
  }

  /** What the client sends for an argument list. */
  function ClientSends(args: Args, wd: JsString): Args {
    if args == [] || SpecOf(args[0]).None? then args
    else
      var spec := SpecOf(args[0]).value;
      WithOptions(WithPositional(args, spec, wd), spec, wd, spec.pathOptions)
  }

  /** What the Runtime's guard lets through. */
  predicate RuntimeAccepts(args: Args) {
    args == [] || SpecOf(args[0]).None? || Accepted(args, SpecOf(args[0]).value)
  }

  predicate ValuesGiven(args: Args) {
    args == [] || SpecOf(args[0]).None? || WellPaired(SpecOf(args[0]).value, args[1..])
  }

  /** Every path option whose default is in effect has a value that can be read, or stands nowhere
      in a list that does not end in a value option without its value. */
  predicate DefaultsFit(args: Args) {
    args == [] || SpecOf(args[0]).None? || AllFit(SpecOf(args[0]).value, args, SpecOf(args[0]).value.pathOptions)
  }

  lemma {:induction false} CommandStays(a: Args, spec: Spec, wd: JsString, options: seq<JsString>)
    requires a != []
    ensures WithOptions(a, spec, wd, options) != [] && WithOptions(a, spec, wd, options)[0] == a[0]
    decreases |options|
  {
    if options != [] {
      ValueStands(spec, a, options[0], 1);
      CommandStays(WithOption(a, spec, wd, options[0]), spec, wd, options[1..]);
    }
  }

  /** Client and Runtime agree for every command and every argument list: what is sent is accepted
      exactly when the defaults fit, and sending it again sends the same. */
  lemma ClientAndRuntimeAgree(args: Args, here: JsString, there: JsString)
    ensures RuntimeAccepts(ClientSends(args, here)) <==> DefaultsFit(args)
    ensures ClientSends(ClientSends(args, here), there) == ClientSends(args, here)
  {
    hide SpecOf, Accepted, WithOptions, WithPositional, AllFit, SoundSpec;
    if args != [] && SpecOf(args[0]).Some? {
      var spec := SpecOf(args[0]).value;
      TableIsSound(args[0]);
      PathContract(spec, args, here, there);
      SentCommand(args, spec, here);
    }
  }

  /** They fit whenever every value option has a value that does not begin with dashes. */
  lemma GivenValuesFit(args: Args)
    requires ValuesGiven(args)
    ensures DefaultsFit(args)
  {
    hide SpecOf, AllFit, SpecOk, WellPaired;
    if args != [] && SpecOf(args[0]).Some? {
      TableIsSound(args[0]);
      WellPairedFits(SpecOf(args[0]).value, args);
    }
  }

  lemma SentCommand(args: Args, spec: Spec, wd: JsString)
    requires args != []
    ensures var r := WithOptions(WithPositional(args, spec, wd), spec, wd, spec.pathOptions); r != [] && r[0] == args[0]
  {
    PositionalStands(spec, args, 1);
    CommandStays(WithPositional(args, spec, wd), spec, wd, spec.pathOptions);
  }

  /** Two lists that are refused: the path option stands there without a value, or its default is
      swallowed as the value that another option lacks. */
  lemma MissingValueIsRefused(wd: JsString)
    ensures !RuntimeAccepts(ClientSends([Js("agent:sync"), DASHES + DIRECTORY], wd))
    ensures !RuntimeAccepts(ClientSends([Js("agent:sync"), DASHES + PROJECT], wd))
  {
    hide SpecOf, ClientSends, RuntimeAccepts, Js;
    AgentSyncSpec();
    var named, swallowed := [Js("agent:sync"), DASHES + DIRECTORY], [Js("agent:sync"), DASHES + PROJECT];
    ClientAndRuntimeAgree(named, wd, wd);
    ClientAndRuntimeAgree(swallowed, wd, wd);
    DashedName(DIRECTORY);
    DashedName(PROJECT);
    assert DIRECTORY in AGENT_SYNC.pathOptions;
    assert OptionValue(named, AGENT_SYNC, DIRECTORY, 1) == -1 && DASHES + DIRECTORY in named;
    OneDangles(swallowed);
    assert !DefaultFits(AGENT_SYNC, swallowed, DIRECTORY);
    assert !DefaultFits(AGENT_SYNC, named, DIRECTORY);
  }

  lemma OneDangles(a: Args)
    requires |a| == 2 && a[1] == DASHES + PROJECT
    ensures OptionValue(a, AGENT_SYNC, DIRECTORY, 1) == -1 && Dangles(AGENT_SYNC, a, 1)
  {
    DashedName(PROJECT);
    assert PROJECT[0] == 'p' as int && DIRECTORY[0] == 'd' as int;
    assert OptionValue(a, AGENT_SYNC, DIRECTORY, 3) == -1 && Dangles(AGENT_SYNC, a, 3);
  }

  lemma AgentSyncSpec()
    ensures SpecOf(Js("agent:sync")) == Some(AGENT_SYNC)
  {
    var c := Js("agent:sync");
    assert c[0] == 'a' as int && c[1] == 'g' as int;
    assert Js("install")[0] == 'i' as int && Js("status")[0] == 's' as int && Js("next")[0] == 'n' as int;
    assert Js("uninstall")[0] == 'u' as int && Js("project:import")[0] == 'p' as int && Js("project:backup")[0] == 'p' as int;
    assert Js("project:restore")[0] == 'p' as int && Js("office:validate")[0] == 'o' as int && Js("office:apply")[0] == 'o' as int;
  }
}
