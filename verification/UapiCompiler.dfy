/** gpiod_line_config_to_uapi and its helpers, filling the kernel's buffer in place. */
module UapiCompiler {
  import opened Wrappers
  import opened LineSettings
  import opened Uapi
  import opened Grouping
  import opened Compiler
  import opened OrderedMap
  import opened SettingsList
  import opened LineConfig

  /** The lines that the `done` mask of a grouping loop holds when it reaches line n. */
  ghost function Done<K>(keys: seq<Option<K>>, n: nat): Word
    requires n <= |keys|
  {
    set j: nat | j < |keys| && (j < n || (keys[j].Some? && exists k :: 0 <= k < n && keys[k] == keys[j]))
  }

  /** The part of line i's class that lies in i..n, as the inner loop of a grouping loop finds it. */
  ghost function ClassFrom<K>(keys: seq<Option<K>>, i: nat, n: nat): Word
    requires i < |keys| && n <= |keys|
  {
    set j: nat | i <= j < n && keys[j] == keys[i]
  }

  lemma DoneStep<K>(keys: seq<Option<K>>, i: nat)
    requires i < |keys|
    ensures i !in Done(keys, i) ==> (Leads(keys, i) <==> keys[i].Some?)
    ensures i in Done(keys, i) ==> !Leads(keys, i) && Done(keys, i + 1) == Done(keys, i)
    ensures keys[i].None? ==> Done(keys, i + 1) == Done(keys, i) + {i}
    ensures Leads(keys, i) ==> Done(keys, i + 1) == Done(keys, i) + {i} + ClassFrom(keys, i, |keys|)
    ensures Leads(keys, i) ==> ClassFrom(keys, i, |keys|) == ClassOf(keys, i)
  {
  }

  lemma ClassStep<K>(keys: seq<Option<K>>, i: nat, j: nat)
    requires i < |keys| && i <= j < |keys|
    ensures ClassFrom(keys, i, j + 1) == ClassFrom(keys, i, j) + if keys[j] == keys[i] then {j} else {}
  {
  }

  /** `attr = &uapi_cfg->attrs[(*attr_idx)++]` and the stores through it. */
  method Append(buf: LineRequestBuffer, idx: nat, attr: ConfigAttribute)
    requires idx < buf.attrs.Length
    modifies buf.attrs
    ensures buf.attrs[..idx + 1] == old(buf.attrs[..idx]) + [attr]
  {
    buf.attrs[idx] := attr;
  }

  method DebounceClass(cfg: LineConfig, i: nat, period: ULong) returns (members: Word)
    requires cfg.Readable() && i < cfg.numConfigs
    requires period == cfg.SettingsAt(i).debounceUs != 0
    ensures members == ClassFrom(DebounceKeys(cfg.Content().lines), i, cfg.numConfigs)
  {
    members := {};
    ghost var keys := DebounceKeys(cfg.Content().lines);
    DebounceAt(cfg.Content().lines);
    for j := i to cfg.numConfigs
      invariant members == ClassFrom(keys, i, j)
    {
      ClassStep(keys, i, j);
      if cfg.SettingsAt(j).debounceUs == period {
        members := members + {j};
      }
    }
  }

  method FlagClass(cfg: LineConfig, i: nat) returns (members: Word)
    requires cfg.Readable() && i < cfg.numConfigs
    ensures members == ClassFrom(FlagKeys(cfg.Content().lines), i, cfg.numConfigs)
  {
    members := {};
    ghost var keys := FlagKeys(cfg.Content().lines);
    FlagsAt(cfg.Content().lines);
    var settings := cfg.SettingsAt(i);
    for j := i to cfg.numConfigs
      invariant members == ClassFrom(keys, i, j)
    {
      ClassStep(keys, i, j);
      if SettingsEqual(settings, cfg.SettingsAt(j)) {
        members := members + {j};
      }
    }
  }

  /** Writes the attribute of line i's class and returns its mask. */
  method DebounceAttribute(cfg: LineConfig, buf: LineRequestBuffer, i: nat, idx: nat) returns (mask: Word)
    requires cfg.Readable() && i < cfg.numConfigs && idx < buf.attrs.Length
    requires Leads(DebounceKeys(cfg.Content().lines), i)
    modifies buf.attrs
    ensures mask == ClassFrom(DebounceKeys(cfg.Content().lines), i, cfg.numConfigs)
    ensures buf.attrs[..idx + 1] == old(buf.attrs[..idx])
      + Emitted(DebounceKeys(cfg.Content().lines), DebounceValues(cfg.Content().lines), i)
  {
    var period := cfg.SettingsAt(i).debounceUs;
    DebounceAt(cfg.Content().lines);
    mask := DebounceClass(cfg, i, period);
    Append(buf, idx, ConfigAttribute(Debounce(Truncate32(period)), mask));
    DoneStep(DebounceKeys(cfg.Content().lines), i);
  }

  method FlagsAttribute(cfg: LineConfig, buf: LineRequestBuffer, i: nat, idx: nat) returns (mask: Word)
    requires cfg.Readable() && i < cfg.numConfigs && idx < buf.attrs.Length
    requires Leads(FlagKeys(cfg.Content().lines), i)
    modifies buf.attrs
    ensures mask == ClassFrom(FlagKeys(cfg.Content().lines), i, cfg.numConfigs)
    ensures buf.attrs[..idx + 1] == old(buf.attrs[..idx])
      + Emitted(FlagKeys(cfg.Content().lines), FlagValues(cfg.Content().lines), i)
  {
    FlagsAt(cfg.Content().lines);
    mask := FlagClass(cfg, i);
    Append(buf, idx, ConfigAttribute(Flags(MakeKernelFlags(cfg.SettingsAt(i))), mask));
    DoneStep(FlagKeys(cfg.Content().lines), i);
  }

  /** The flags of line i become the default; its class is returned. */
  method FlagsDefault(cfg: LineConfig, buf: LineRequestBuffer, i: nat) returns (members: Word)
    requires cfg.Readable() && i < cfg.numConfigs
    modifies buf`flags
    ensures buf.flags == MakeKernelFlags(cfg.Content().lines[i].settings)
    ensures members == ClassFrom(FlagKeys(cfg.Content().lines), i, cfg.numConfigs)
  {
    buf.flags := MakeKernelFlags(cfg.SettingsAt(i));
    members := FlagClass(cfg, i);
  }

  ghost function DebounceTurn(m: Model, i: nat): seq<ConfigAttribute>
    requires i < |m.lines|
  {
    Emitted(DebounceKeys(m.lines), DebounceValues(m.lines), i)
  }

  /** One turn of the loop in set_debounce_periods. */
  method SetDebounceOf(cfg: LineConfig, buf: LineRequestBuffer, i: nat, done: Word, idx: nat)
    returns (ok: bool, newDone: Word, newIdx: nat)
    requires cfg.Readable() && i < cfg.numConfigs && done == Done(DebounceKeys(cfg.Content().lines), i)
    requires buf.attrs.Length == NUM_ATTRS_MAX && idx <= NUM_ATTRS_MAX
    modifies buf.attrs
    ensures ok <==> idx + |DebounceTurn(cfg.Content(), i)| <= NUM_ATTRS_MAX
    ensures ok ==> newDone == Done(DebounceKeys(cfg.Content().lines), i + 1)
    ensures ok ==> newIdx == idx + |DebounceTurn(cfg.Content(), i)|
    ensures ok ==> buf.attrs[..newIdx] == old(buf.attrs[..idx]) + DebounceTurn(cfg.Content(), i)
  {
    ok, newDone, newIdx := true, done, idx;
    ghost var keys := DebounceKeys(cfg.Content().lines);
    DoneStep(keys, i);
    DebounceAt(cfg.Content().lines);
    if i in done {
      return;
    }
    newDone := newDone + {i};
    if cfg.SettingsAt(i).debounceUs == 0 {
      return;
    }
    if idx == NUM_ATTRS_MAX {
      return false, newDone, newIdx;
    }
    var mask := DebounceAttribute(cfg, buf, i, idx);
    newIdx := idx + 1;
    newDone := newDone + mask;
  }

  /** The same turn, seen from the start of the loop. */
  method NextDebounce(cfg: LineConfig, buf: LineRequestBuffer, i: nat, done: Word, idx: nat,
                      ghost before: seq<ConfigAttribute>)
    returns (ok: bool, newDone: Word, newIdx: nat)
    requires cfg.Readable() && i < cfg.numConfigs && done == Done(DebounceKeys(cfg.Content().lines), i)
    requires buf.attrs.Length == NUM_ATTRS_MAX && idx <= NUM_ATTRS_MAX
    requires buf.attrs[..idx] == before + DebounceBlock(cfg.Content(), i)
    modifies buf.attrs
    ensures ok <==> |before| + |DebounceBlock(cfg.Content(), i + 1)| <= NUM_ATTRS_MAX
    ensures ok ==> newDone == Done(DebounceKeys(cfg.Content().lines), i + 1)
    ensures ok ==> newIdx <= NUM_ATTRS_MAX && buf.attrs[..newIdx] == before + DebounceBlock(cfg.Content(), i + 1)
  {
    ghost var m, whole := cfg.Content(), buf.attrs[..idx];
    assert idx == |before| + |DebounceBlock(m, i)| by {
      assert |whole| == idx;
    }
    ok, newDone, newIdx := SetDebounceOf(cfg, buf, i, done, idx);
    assert DebounceBlock(m, i + 1) == DebounceBlock(m, i) + DebounceTurn(m, i);
    Regroup(before, DebounceBlock(m, i), DebounceTurn(m, i));
  }

  /** Appends the debounce attributes; fails exactly when they do not all fit. */
  method SetDebouncePeriods(cfg: LineConfig, buf: LineRequestBuffer, attrIdx: nat) returns (ok: bool, idx: nat)
    requires cfg.Readable() && buf.attrs.Length == NUM_ATTRS_MAX && attrIdx <= NUM_ATTRS_MAX
    modifies buf.attrs
    ensures ok <==> attrIdx + |DebounceBlock(cfg.Content(), cfg.numConfigs)| <= NUM_ATTRS_MAX
    ensures ok ==> idx == attrIdx + |DebounceBlock(cfg.Content(), cfg.numConfigs)|
    ensures ok ==> buf.attrs[..idx] == old(buf.attrs[..attrIdx]) + DebounceBlock(cfg.Content(), cfg.numConfigs)
  {
    ghost var m, before := cfg.Content(), buf.attrs[..attrIdx];
    var done: Word := {};
    idx := attrIdx;
    ok := true;
    for i := 0 to cfg.numConfigs
      invariant cfg.Readable() && cfg.Content() == m && ok
      invariant done == Done(DebounceKeys(m.lines), i)
      invariant idx <= NUM_ATTRS_MAX && buf.attrs[..idx] == before + DebounceBlock(m, i)
    {
      ok, done, idx := NextDebounce(cfg, buf, i, done, idx, before);
      if !ok {
        BlockGrows(DebounceKeys(m.lines), DebounceValues(m.lines), i + 1, cfg.numConfigs);
        return;
      }
    }
    assert |buf.attrs[..idx]| == idx;
  }

  /** What line i adds to the flag attributes: the first class has become the default. */
  ghost function FlagTurn(m: Model, i: nat): seq<ConfigAttribute>
    requires i < |m.lines|
  {
    if i == 0 then [] else Emitted(FlagKeys(m.lines), FlagValues(m.lines), i)
  }

  /** One turn of the loop in set_flags. */
  method SetFlagsOf(cfg: LineConfig, buf: LineRequestBuffer, i: nat, done: Word, idx: nat)
    returns (ok: bool, newDone: Word, newIdx: nat)
    requires cfg.Readable() && i < cfg.numConfigs && done == Done(FlagKeys(cfg.Content().lines), i)
    requires buf.attrs.Length == NUM_ATTRS_MAX && idx <= NUM_ATTRS_MAX
    modifies buf`flags, buf.attrs
    ensures ok <==> idx + |FlagTurn(cfg.Content(), i)| <= NUM_ATTRS_MAX
    ensures ok ==> newDone == Done(FlagKeys(cfg.Content().lines), i + 1)
    ensures ok ==> newIdx == idx + |FlagTurn(cfg.Content(), i)|
    ensures ok ==> buf.attrs[..newIdx] == old(buf.attrs[..idx]) + FlagTurn(cfg.Content(), i)
    ensures buf.flags == if i == 0 then DefaultFlags(cfg.Content()) else old(buf.flags)
  {
    ok, newDone, newIdx := true, done, idx;
    ghost var keys := FlagKeys(cfg.Content().lines);
    DoneStep(keys, i);
    FlagsAt(cfg.Content().lines);
    assert i == 0 ==> Leads(keys, i);
    if i in done {
      return;
    }
    newDone := newDone + {i};
    var members: Word;
    var globalsTaken := i > 0;
    if !globalsTaken {
      members := FlagsDefault(cfg, buf, i);
    } else {
      if idx == NUM_ATTRS_MAX {
        return false, newDone, newIdx;
      }
      members := FlagsAttribute(cfg, buf, i, idx);
      newIdx := idx + 1;
    }
    newDone := newDone + members;
  }

  /** The same turn, seen from the start of the loop. */
  method NextFlags(cfg: LineConfig, buf: LineRequestBuffer, i: nat, done: Word, idx: nat,
                   ghost before: seq<ConfigAttribute>)
    returns (ok: bool, newDone: Word, newIdx: nat)
    requires cfg.Readable() && i < cfg.numConfigs && done == Done(FlagKeys(cfg.Content().lines), i)
    requires buf.attrs.Length == NUM_ATTRS_MAX && idx <= NUM_ATTRS_MAX
    requires buf.attrs[..idx] == before + FlagBlock(cfg.Content(), i)
    modifies buf`flags, buf.attrs
    ensures ok <==> |before| + |FlagBlock(cfg.Content(), i + 1)| <= NUM_ATTRS_MAX
    ensures ok ==> newDone == Done(FlagKeys(cfg.Content().lines), i + 1)
    ensures ok ==> newIdx <= NUM_ATTRS_MAX && buf.attrs[..newIdx] == before + FlagBlock(cfg.Content(), i + 1)
    ensures buf.flags == if i == 0 then DefaultFlags(cfg.Content()) else old(buf.flags)
  {
    ghost var m, whole := cfg.Content(), buf.attrs[..idx];
    assert idx == |before| + |FlagBlock(m, i)| by {
      assert |whole| == idx;
    }
    ok, newDone, newIdx := SetFlagsOf(cfg, buf, i, done, idx);
    assert FlagBlock(m, i + 1) == FlagBlock(m, i) + FlagTurn(m, i);
    Regroup(before, FlagBlock(m, i), FlagTurn(m, i));
  }

  lemma {:induction false} FlagBlockGrows(m: Model, i: nat, n: nat)
    requires i <= n <= |m.lines|
    ensures |FlagBlock(m, i)| <= |FlagBlock(m, n)|
    decreases n
  {
    if i < n {
      FlagBlockGrows(m, i, n - 1);
    }
  }

  /** Sets the default flags and appends the flag attributes; fails exactly when they do not
      all fit. */
  method SetFlags(cfg: LineConfig, buf: LineRequestBuffer, attrIdx: nat) returns (ok: bool, idx: nat)
    requires cfg.Readable() && buf.attrs.Length == NUM_ATTRS_MAX && attrIdx <= NUM_ATTRS_MAX
    modifies buf`flags, buf.attrs
    ensures ok <==> attrIdx + |FlagBlock(cfg.Content(), cfg.numConfigs)| <= NUM_ATTRS_MAX
    ensures ok ==> idx == attrIdx + |FlagBlock(cfg.Content(), cfg.numConfigs)|
    ensures ok ==> buf.attrs[..idx] == old(buf.attrs[..attrIdx]) + FlagBlock(cfg.Content(), cfg.numConfigs)
    ensures buf.flags == if cfg.numConfigs == 0 then old(buf.flags) else DefaultFlags(cfg.Content())
  {
    ghost var m, before := cfg.Content(), buf.attrs[..attrIdx];
    var done: Word := {};
    idx := attrIdx;
    ok := true;
    for i := 0 to cfg.numConfigs
      invariant cfg.Readable() && cfg.Content() == m && ok
      invariant done == Done(FlagKeys(m.lines), i)
      invariant idx <= NUM_ATTRS_MAX && buf.attrs[..idx] == before + FlagBlock(m, i)
      invariant buf.flags == if i == 0 then old(buf.flags) else DefaultFlags(m)
    {
      ok, done, idx := NextFlags(cfg, buf, i, done, idx, before);
      if !ok {
        FlagBlockGrows(m, i + 1, cfg.numConfigs);
        return;
      }
    }
    assert |buf.attrs[..idx]| == idx;
  }

  method HasOutputDirection(cfg: LineConfig) returns (r: bool)
    requires cfg.Readable()
    ensures r <==> HasOutput(cfg.Content().lines)
  {
    for i := 0 to cfg.numConfigs
      invariant forall j :: 0 <= j < i ==> !IsOutput(cfg.Content().lines[j].settings)
    {
      if IsOutput(cfg.SettingsAt(i)) {
        return true;
      }
    }
    r := false;
  }

  /** set_kernel_output_values: the lines' own values, then the "global" ones over them. */
  method KernelOutputValues(cfg: LineConfig) returns (mask: Word, vals: Word)
    requires cfg.Readable()
    ensures mask == OutputMask(cfg.Content()) && vals == OutputBits(cfg.Content())
  {
    ghost var lines, outputs := cfg.Content().lines, cfg.Content().outputs;
    mask, vals := {}, {};
    for i := 0 to cfg.numConfigs
      invariant mask == OutputMask(Model(lines[..i], []))
      invariant vals == OutputBits(Model(lines[..i], []))
    {
      var settings := cfg.SettingsAt(i);
      if IsOutput(settings) {
        mask := mask + {i};
        vals := if settings.outputValue == Active then vals + {i} else vals - {i};
      }
    }
    assert lines[..cfg.numConfigs] == lines;
    for i := 0 to cfg.numOutputValues
      invariant mask == OutputMask(Model(lines, outputs[..i]))
      invariant vals == OutputBits(Model(lines, outputs[..i]))
    {
      mask := mask + {i};
      vals := if cfg.outputValues[i] == Active then vals + {i} else vals - {i};
    }
    assert outputs[..cfg.numOutputValues] == outputs;
  }

  method SetOutputValues(cfg: LineConfig, buf: LineRequestBuffer, attrIdx: nat) returns (idx: nat)
    requires cfg.Readable() && buf.attrs.Length == NUM_ATTRS_MAX && attrIdx == 0
    modifies buf.attrs
    ensures idx == |OutputBlock(cfg.Content())| && buf.attrs[..idx] == OutputBlock(cfg.Content())
  {
    idx := attrIdx;
    var any := HasOutputDirection(cfg);
    if any {
      var mask, values := KernelOutputValues(cfg);
      buf.attrs[idx] := ConfigAttribute(OutputValues(values), mask);
      idx := idx + 1;
    }
  }

  method SetOffsets(cfg: LineConfig, buf: LineRequestBuffer)
    requires cfg.Readable() && buf.offsets.Length == LINES_MAX
    modifies buf`numLines, buf.offsets
    ensures buf.numLines == cfg.numConfigs
    ensures buf.offsets[..buf.numLines] == Offsets(cfg.Content().lines)
  {
    buf.numLines := cfg.numConfigs;
    for i := 0 to cfg.numConfigs
      invariant buf.numLines == cfg.numConfigs
      invariant forall j :: 0 <= j < i ==> buf.offsets[j] == cfg.Content().lines[j].offset
    {
      buf.offsets[i] := cfg.slots[i].offset;
    }
  }

  method SetAttributes(cfg: LineConfig, buf: LineRequestBuffer) returns (ok: bool, idx: nat)
    requires cfg.Readable() && buf.attrs.Length == NUM_ATTRS_MAX
    modifies buf`flags, buf.attrs
    ensures ok <==> Compile(cfg.Content()).Some?
    ensures ok ==> idx == |AllAttributes(cfg.Content())| && buf.attrs[..idx] == AllAttributes(cfg.Content())
    ensures ok ==> buf.flags == if cfg.numConfigs == 0 then old(buf.flags) else DefaultFlags(cfg.Content())
  {
    ghost var m := cfg.Content();
    idx := SetOutputValues(cfg, buf, 0);
    assert cfg.Content() == m && cfg.Readable();
    ok, idx := SetDebouncePeriods(cfg, buf, idx);
    if ok {
      assert cfg.Content() == m && cfg.Readable();
      ok, idx := SetFlags(cfg, buf, idx);
      assert cfg.Content() == m;
    }
  }

  /** gpiod_line_config_to_uapi. On failure (E2BIG) the number of attributes is left alone. */
  method ToUapi(cfg: LineConfig, buf: LineRequestBuffer) returns (ok: bool)
    requires cfg.Readable() && buf.Valid()
    modifies buf, buf.offsets, buf.attrs
    ensures buf.Valid()
    ensures ok <==> Compile(cfg.Content()).Some?
    ensures ok && (cfg.numConfigs == 0 ==> old(buf.flags) == {}) ==> Compile(cfg.Content()) == Some(buf.Contents())
    ensures ok && (cfg.numConfigs == 0 ==> old(buf.flags) == {}) ==>
      forall i: nat, f: nat :: i < |cfg.Content().lines| ==>
        (f in EffectiveFlags(buf.Contents(), i) <==> AsksForBit(cfg.Content().lines[i].settings, f))
    ensures !ok ==> buf.numAttrs == old(buf.numAttrs)
    ensures buf.numLines == |cfg.Content().lines|
    ensures buf.offsets[..buf.numLines] == Offsets(cfg.Content().lines)
  {
    ghost var m := cfg.Content();
    SetOffsets(cfg, buf);
    assert cfg.Content() == m && cfg.Readable();
    var idx;
    ok, idx := SetAttributes(cfg, buf);
    if ok {
      buf.numAttrs := idx;
      if Compile(m) == Some(buf.Contents()) {
        forall i: nat, f: nat | i < |m.lines|
          ensures f in EffectiveFlags(buf.Contents(), i) <==> AsksForBit(m.lines[i].settings, f)
        {
          CompiledBits(m, buf.Contents(), i, f);
        }
      }
    }
  }
}
