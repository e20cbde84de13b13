/** The configuration language of the GPIO character device, lib/uapi/gpio.h, and the rule by
    which the kernel reads it. A 64-bit word is the set of its 1 bits (see LineMask). */
module Uapi {
  import opened Wrappers
  import opened LineSettings

  const LINES_MAX: nat := 64
  const NUM_ATTRS_MAX: nat := 10

  type Word = set<nat>

  // enum gpio_v2_line_flag, as bit numbers
  const FLAG_USED: nat := 0
  const FLAG_ACTIVE_LOW: nat := 1
  const FLAG_INPUT: nat := 2
  const FLAG_OUTPUT: nat := 3
  const FLAG_EDGE_RISING: nat := 4
  const FLAG_EDGE_FALLING: nat := 5
  const FLAG_OPEN_DRAIN: nat := 6
  const FLAG_OPEN_SOURCE: nat := 7
  const FLAG_BIAS_PULL_UP: nat := 8
  const FLAG_BIAS_PULL_DOWN: nat := 9
  const FLAG_BIAS_DISABLED: nat := 10
  const FLAG_EVENT_CLOCK_REALTIME: nat := 11
  const FLAG_EVENT_CLOCK_HTE: nat := 12

  const U32_LIMIT: nat := 0x1_0000_0000

  datatype Attribute =
    | Unused
    | Flags(flags: Word)
    | OutputValues(values: Word)
    | Debounce(periodUs: nat)

  datatype ConfigAttribute = ConfigAttribute(attr: Attribute, mask: Word)

  datatype Config = Config(flags: Word, attrs: seq<ConfigAttribute>)

  datatype Kind = KindUnused | KindFlags | KindOutputValues | KindDebounce

  function KindOf(a: Attribute): Kind {
    match a
    case Unused => KindUnused
    case Flags(_) => KindFlags
    case OutputValues(_) => KindOutputValues
    case Debounce(_) => KindDebounce
  }

  predicate Applies(a: ConfigAttribute, kind: Kind, line: nat) {
    KindOf(a.attr) == kind && line in a.mask
  }

  /** "If an attribute is associated with a line multiple times then the first occurrence
      (i.e. lowest index) has precedence." */
  function FirstMatch(attrs: seq<ConfigAttribute>, kind: Kind, line: nat): (r: Option<Attribute>)
    ensures r.Some? ==> KindOf(r.value) == kind
  {
    if attrs == [] then None
    else if Applies(attrs[0], kind, line) then Some(attrs[0].attr)
    else FirstMatch(attrs[1..], kind, line)
  }

  /** A flags attribute "overrides the default flags" for its lines. */
  function EffectiveFlags(c: Config, line: nat): Word {
    var a := FirstMatch(c.attrs, KindFlags, line);
    if a.Some? then a.value.flags else c.flags
  }

  /** Zero when the line is not debounced. */
  function EffectiveDebounce(c: Config, line: nat): nat {
    var a := FirstMatch(c.attrs, KindDebounce, line);
    if a.Some? then a.value.periodUs else 0
  }

  /** None when the configuration says nothing about the line's level. */
  function EffectiveOutput(c: Config, line: nat): Option<Value> {
    var a := FirstMatch(c.attrs, KindOutputValues, line);
    if a.None? then None else Some(if line in a.value.values then Active else Inactive)
  }

  /** `struct gpio_v2_line_request`, the buffer that the library fills in. */
  class LineRequestBuffer {
    const offsets: array<nat>
    const attrs: array<ConfigAttribute>
    var numLines: nat
    var flags: Word
    var numAttrs: nat

    ghost predicate Valid()
      reads this
    {
      offsets.Length == LINES_MAX && attrs.Length == NUM_ATTRS_MAX &&
      numLines <= LINES_MAX && numAttrs <= NUM_ATTRS_MAX
    }

    function Contents(): Config
      reads this, attrs
      requires Valid()
    {
      Config(flags, attrs[..numAttrs])
    }

    constructor ()
      ensures Valid() && fresh(offsets) && fresh(attrs)
      ensures numLines == 0 && Contents() == Config({}, [])
    {
      offsets := new nat[LINES_MAX](_ => 0);
      attrs := new ConfigAttribute[NUM_ATTRS_MAX](_ => ConfigAttribute(Unused, {}));
      numLines := 0;
      flags := {};
      numAttrs := 0;
    }
  }

  // ---------------------------------------------------------------------------------------
  // Lists in which no line meets the same kind of attribute twice

  ghost predicate Unambiguous(attrs: seq<ConfigAttribute>) {
    forall p, q :: 0 <= p < q < |attrs| && KindOf(attrs[p].attr) == KindOf(attrs[q].attr) ==>
      attrs[p].mask !! attrs[q].mask
  }

  lemma {:induction false} FirstMatchNone(attrs: seq<ConfigAttribute>, kind: Kind, line: nat)
    ensures FirstMatch(attrs, kind, line).None? <==>
      forall p :: 0 <= p < |attrs| ==> !Applies(attrs[p], kind, line)
  {
    if attrs != [] {
      FirstMatchNone(attrs[1..], kind, line);
      assert forall p :: 1 <= p < |attrs| ==> attrs[p] == attrs[1..][p - 1];
    }
  }

  lemma {:induction false} FirstMatchIn(attrs: seq<ConfigAttribute>, kind: Kind, line: nat)
    returns (p: nat)
    requires FirstMatch(attrs, kind, line).Some?
    ensures p < |attrs| && Applies(attrs[p], kind, line)
    ensures FirstMatch(attrs, kind, line) == Some(attrs[p].attr)
  {
    if Applies(attrs[0], kind, line) {
      p := 0;
    } else {
      var q := FirstMatchIn(attrs[1..], kind, line);
      p := q + 1;
    }
  }

  lemma OnlyMatch(attrs: seq<ConfigAttribute>, kind: Kind, line: nat, p: nat)
    requires Unambiguous(attrs)
    requires p < |attrs| && Applies(attrs[p], kind, line)
    ensures FirstMatch(attrs, kind, line) == Some(attrs[p].attr)
  {
    FirstMatchNone(attrs, kind, line);
    var q := FirstMatchIn(attrs, kind, line);
  }

  /** The order of an unambiguous list carries no meaning. */
  lemma ReorderingKeepsMeaning(a: seq<ConfigAttribute>, b: seq<ConfigAttribute>, kind: Kind, line: nat)
    requires Unambiguous(a)
    requires multiset(a) == multiset(b)
    ensures FirstMatch(a, kind, line) == FirstMatch(b, kind, line)
  {
    if FirstMatch(b, kind, line).Some? {
      var q := FirstMatchIn(b, kind, line);
      assert b[q] in multiset(b);
      var p :| 0 <= p < |a| && a[p] == b[q];
      OnlyMatch(a, kind, line, p);
    } else if FirstMatch(a, kind, line).Some? {
      var p := FirstMatchIn(a, kind, line);
      assert a[p] in multiset(a);
      var q :| 0 <= q < |b| && b[q] == a[p];
      FirstMatchNone(b, kind, line);
    }
  }

  lemma {:induction false} FirstMatchOfConcat(a: seq<ConfigAttribute>, b: seq<ConfigAttribute>, kind: Kind, line: nat)
    ensures FirstMatch(a + b, kind, line) ==
      if FirstMatch(a, kind, line).Some? then FirstMatch(a, kind, line) else FirstMatch(b, kind, line)
  {
    if a == [] {
      assert a + b == b;
    } else {
      assert (a + b)[1..] == a[1..] + b;
      FirstMatchOfConcat(a[1..], b, kind, line);
    }
  }

  // ---------------------------------------------------------------------------------------
  // How few attributes any list can make do with

  function CountKind(attrs: seq<ConfigAttribute>, kind: Kind): nat {
    if attrs == [] then 0
    else CountKind(attrs[1..], kind) + (if KindOf(attrs[0].attr) == kind then 1 else 0)
  }

  /** The attributes of one kind that occur in a list. */
  function Occurring(attrs: seq<ConfigAttribute>, kind: Kind): set<Attribute> {
    if attrs == [] then {}
    else Occurring(attrs[1..], kind) + (if KindOf(attrs[0].attr) == kind then {attrs[0].attr} else {})
  }

  lemma {:induction false} OccurringAtMostCount(attrs: seq<ConfigAttribute>, kind: Kind)
    ensures |Occurring(attrs, kind)| <= CountKind(attrs, kind)
  {
    if attrs != [] {
      OccurringAtMostCount(attrs[1..], kind);
    }
  }

  lemma {:induction false} MatchOccurs(attrs: seq<ConfigAttribute>, kind: Kind, line: nat)
    requires FirstMatch(attrs, kind, line).Some?
    ensures FirstMatch(attrs, kind, line).value in Occurring(attrs, kind)
  {
    if !Applies(attrs[0], kind, line) {
      MatchOccurs(attrs[1..], kind, line);
    }
  }

  /** Whatever a list of attributes makes of the lines, it takes one debounce attribute for
      each nonzero period that some line ends up with. */
  lemma DebounceLowerBound(c: Config, periods: set<nat>)
    requires forall p :: p in periods ==> p != 0 && exists line: nat :: EffectiveDebounce(c, line) == p
    ensures |periods| <= CountKind(c.attrs, KindDebounce)
  {
    var attribute := (p: nat) => Debounce(p);
    forall p | p in periods ensures attribute(p) in Occurring(c.attrs, KindDebounce) {
      var line: nat :| EffectiveDebounce(c, line) == p;
      MatchOccurs(c.attrs, KindDebounce, line);
    }
    ImageSize(periods, attribute);
    SubsetSize(Image(periods, attribute), Occurring(c.attrs, KindDebounce));
    OccurringAtMostCount(c.attrs, KindDebounce);
  }

  /** Every flags word beyond the default one needs an attribute of its own. */
  lemma FlagsLowerBound(c: Config, words: set<Word>)
    requires forall w :: w in words ==> exists line: nat :: EffectiveFlags(c, line) == w
    ensures |words| <= 1 + CountKind(c.attrs, KindFlags)
  {
    var own := words - {c.flags};
    var attribute := (w: Word) => Flags(w);
    forall w | w in own ensures attribute(w) in Occurring(c.attrs, KindFlags) {
      var line: nat :| EffectiveFlags(c, line) == w;
      MatchOccurs(c.attrs, KindFlags, line);
    }
    ImageSize(own, attribute);
    SubsetSize(Image(own, attribute), Occurring(c.attrs, KindFlags));
    OccurringAtMostCount(c.attrs, KindFlags);
    SubsetSize(words, own + {c.flags});
  }
}
