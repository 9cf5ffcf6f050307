/**
 * The open-item list of SimpleAccordion (components/ui/simple-accordion.tsx):
 * the `open` state, built from `defaultValue` on mount and replaced by `toggle`.
 * In single mode at most one value is open; in multiple mode `toggle` flips one
 * value's membership.
 */
module SimpleAccordion {
  import opened ClockText

  datatype Mode = Single | Multiple

  /** The `type` prop with its default applied (line 30). */
  function ModeOption(opt: Option<Mode>): (mode: Mode)
    ensures opt.None? ==> mode == Single
    ensures opt.Some? ==> mode == opt.value
  {
    match opt
    case None => Single
    case Some(m) => m
  }

  /** The `collapsible` prop with its default applied (line 31). */
  function CollapsibleOption(opt: Option<bool>): (collapsible: bool)
    ensures opt.None? ==> collapsible
    ensures opt.Some? ==> collapsible == opt.value
  {
    match opt
    case None => true
    case Some(b) => b
  }

  /** The `defaultValue` prop: a list, one value, or not given (then `[]`). */
  datatype DefaultValue = Many(values: seq<string>) | One(value: string) | NotGiven

  /** The initial `open` list (lines 36-38): a list as given, a non-empty string as
      a one-element list, and nothing otherwise. */
  function InitialOpen(d: DefaultValue): (open: seq<string>)
    ensures d.Many? ==> open == d.values
    ensures d.One? && d.value != "" ==> open == [d.value]
    ensures d.One? && d.value == "" ==> open == []
    ensures d.NotGiven? ==> open == []
  {
    match d
    case Many(values) => values
    case One(value) => if value != "" then [value] else []
    case NotGiven => []
  }

  /** `open.filter((item) => item !== value)`: every copy of the value dropped. */
  function Without(open: seq<string>, value: string): (r: seq<string>)
    ensures |r| <= |open|
  {
    if open == [] then []
    else if open[0] == value then Without(open[1..], value)
    else [open[0]] + Without(open[1..], value)
  }

  /** The list `toggle(value)` sets (lines 40-57). */
  function Toggled(open: seq<string>, value: string, mode: Mode, collapsible: bool): seq<string>
  {
    match mode
    case Single => if collapsible && value in open then [] else [value]
    case Multiple => if value in open then Without(open, value) else open + [value]
  }

  /** The accordion's state: the open list, with the mode and option fixed. */
  class Accordion {
    var open: seq<string>
    const mode: Mode
    const collapsible: bool

    /** Mounting with the props as given (lines 29-38); a prop that is not given
        takes its default. */
    constructor(modeOpt: Option<Mode>, collapsibleOpt: Option<bool>, d: DefaultValue)
      ensures open == InitialOpen(d)
      ensures mode == ModeOption(modeOpt) && collapsible == CollapsibleOption(collapsibleOpt)
    {
      open := InitialOpen(d);
      mode := ModeOption(modeOpt);
      collapsible := CollapsibleOption(collapsibleOpt);
    }

    method Toggle(value: string)
      modifies this
      ensures open == Toggled(old(open), value, mode, collapsible)
    {
      if mode == Single {
        if collapsible && value in open {
          open := [];
        } else {
          open := [value];
        }
      } else {
        if value in open {
          open := Without(open, value);
        } else {
          open := open + [value];
        }
      }
    }
  }

  /** In single mode any toggle leaves at most one value open. */
  lemma SingleAtMostOne(open: seq<string>, value: string, collapsible: bool)
    ensures |Toggled(open, value, Single, collapsible)| <= 1
  {
  }

  /** Single collapsible mode: toggling an open value closes everything; toggling
      any other value makes it the only open one. */
  lemma SingleCollapsible(open: seq<string>, value: string)
    ensures value in open ==> Toggled(open, value, Single, true) == []
    ensures value !in open ==> Toggled(open, value, Single, true) == [value]
  {
  }

  /** Single non-collapsible mode: a toggle always opens exactly that value, so a
      second toggle of it changes nothing. */
  lemma SingleFixedIdempotent(open: seq<string>, value: string)
    ensures Toggled(open, value, Single, false) == [value]
    ensures Toggled(Toggled(open, value, Single, false), value, Single, false) == [value]
  {
  }

  /** Removal drops exactly the copies of the value. */
  lemma {:induction false} WithoutMembers(open: seq<string>, value: string)
    ensures forall x :: x in Without(open, value) <==> x in open && x != value
  {
    if open != [] {
      WithoutMembers(open[1..], value);
      assert open == [open[0]] + open[1..];
    }
  }

  /** Multiple mode: the toggled value's membership flips; every other value's is kept. */
  lemma MultipleFlips(open: seq<string>, value: string, collapsible: bool)
    ensures value in Toggled(open, value, Multiple, collapsible) <==> value !in open
    ensures forall x :: x != value ==> (x in Toggled(open, value, Multiple, collapsible) <==> x in open)
  {
    WithoutMembers(open, value);
  }

  /** Removing a value that is not in the list leaves it as it is. */
  lemma {:induction false} WithoutAbsent(open: seq<string>, value: string)
    requires value !in open
    ensures Without(open, value) == open
  {
    if open != [] {
      WithoutAbsent(open[1..], value);
      assert open == [open[0]] + open[1..];
    }
  }

  /** Removal distributes over a concatenation. */
  lemma {:induction false} WithoutAppend(a: seq<string>, b: seq<string>, value: string)
    ensures Without(a + b, value) == Without(a, value) + Without(b, value)
  {
    if a == [] {
      assert a + b == b;
    } else {
      WithoutAppend(a[1..], b, value);
      WithoutAppendStep(a, b, value);
    }
  }

  lemma WithoutAppendStep(a: seq<string>, b: seq<string>, value: string)
    requires a != []
    requires Without(a[1..] + b, value) == Without(a[1..], value) + Without(b, value)
    ensures Without(a + b, value) == Without(a, value) + Without(b, value)
  {
    var ab := a + b;
    assert ab[0] == a[0] && ab[1..] == a[1..] + b;
    if a[0] != value {
      var rest, tail := Without(a[1..], value), Without(b, value);
      assert [a[0]] + (rest + tail) == ([a[0]] + rest) + tail;
    }
  }

  /** Multiple mode: toggling a closed value twice restores the list exactly (it is
      appended at the end, then every copy is dropped again). */
  lemma MultipleToggleTwice(open: seq<string>, value: string, collapsible: bool)
    requires value !in open
    ensures Toggled(Toggled(open, value, Multiple, collapsible), value, Multiple, collapsible) == open
  {
    WithoutAppend(open, [value], value);
    WithoutAbsent(open, value);
    assert Without([value], value) == [];
  }

  /** Multiple mode: an open value that appears twice is dropped in both places, so
      toggling it twice does not give the list back. */
  lemma MultipleDropsAllCopies(a: string, b: string)
    requires a != b
    ensures Toggled(Toggled([a, b, a], a, Multiple, true), a, Multiple, true) == [b, a]
  {
    assert [a, b, a][1..] == [b, a];
    assert [b, a][1..] == [a];
    assert [a][1..] == [];
    assert Without([a], a) == [];
    assert Without([b, a], a) == [b];
    assert Without([a, b, a], a) == [b];
    assert [b] + [a] == [b, a];
  }
}
