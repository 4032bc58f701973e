/** What `handleSecurityPatch` leaves in the two files, and what the dialog reads back
    from them: a manual save followed by `loadCurrentConfig` puts every saved value back
    into its input. */
module RoundTrip {
  import opened Wrappers
  import opened Text
  import opened Validators
  import opened DialogState
  import opened SavePatch
  import opened ConfigReader

  /** The `sed` substitution of `^auto_config=.*` by `auto_config=<v>`, on one line. */
  function SetAutoConfigLine(line: string, v: string): string {
    if HasKey(line, AutoConfigKey) then AutoConfigKey + "=" + v else line
  }

  function SetAutoConfigLines(lines: seq<string>, v: string): (r: seq<string>)
    ensures |r| == |lines|
  {
    seq(|lines|, i requires 0 <= i < |lines| => SetAutoConfigLine(lines[i], v))
  }

  /** The settings file after that `sed` command, which both save modes run with 0
      and the auto-config button with 1. */
  function SetAutoConfig(text: string, v: string): (r: string)
    ensures '\n' !in v ==> Split(r, '\n') == SetAutoConfigLines(Split(text, '\n'), v)
  {
    UpdatedLinesReadBack(text, v);
    Join(SetAutoConfigLines(Split(text, '\n'), v), '\n')
  }

  /** Splitting the rewritten file gives the rewritten lines, as long as the new value
      holds no line break. */
  lemma UpdatedLinesReadBack(text: string, v: string)
    ensures var updated := SetAutoConfigLines(Split(text, '\n'), v);
      '\n' !in v ==> Split(Join(updated, '\n'), '\n') == updated
  {
    var lines := Split(text, '\n');
    var updated := SetAutoConfigLines(lines, v);
    if '\n' !in v {
      SplitSpec(text, '\n');
      forall i | 0 <= i < |updated| ensures '\n' !in updated[i] {
        if HasKey(lines[i], AutoConfigKey) {
          assert updated[i] == AutoConfigKey + "=" + v;
        }
      }
      SplitJoin(updated, '\n');
    }
  }

  predicate HasAutoConfigLine(text: string) {
    exists i :: 0 <= i < |Split(text, '\n')| && HasKey(Split(text, '\n')[i], AutoConfigKey)
  }

  lemma {:induction false} AutoConfigOfSetLines(lines: seq<string>, v: string)
    requires exists i :: 0 <= i < |lines| && HasKey(lines[i], AutoConfigKey)
    requires '=' !in v
    ensures AutoConfigOf(SetAutoConfigLines(lines, v)) == v
  {
    var updated := SetAutoConfigLines(lines, v);
    var n := |lines|;
    if HasKey(lines[n - 1], AutoConfigKey) {
      ValueOfEntry(AutoConfigKey, v);
    } else {
      var init := lines[..n - 1];
      assert exists i :: 0 <= i < |init| && HasKey(init[i], AutoConfigKey) by {
        var i :| 0 <= i < |lines| && HasKey(lines[i], AutoConfigKey);
        assert init[i] == lines[i];
      }
      AutoConfigOfSetLines(init, v);
      assert updated[..n - 1] == SetAutoConfigLines(init, v);
    }
  }

  /** After the `sed` command the dialog reads `auto_config` as the value written, as
      long as the file had an `auto_config=` line. */
  lemma SetAutoConfigReadsBack(text: string, v: string)
    requires HasAutoConfigLine(text)
    requires '=' !in v && '\n' !in v
    ensures SetAutoConfig(text, v) != ""
    ensures AutoConfigOf(Split(SetAutoConfig(text, v), '\n')) == v
  {
    AutoConfigOfSetLines(Split(text, '\n'), v);
    assert AutoConfigOf(Split("", '\n')) == "1" by {
      assert !HasKey("", AutoConfigKey);
    }
  }

  /** Without an `auto_config=` line the `sed` command changes nothing and the flag
      reads as '1', so a manual value saved then is never loaded back. */
  lemma NoAutoConfigLineReadsAsAuto(text: string, v: string)
    requires !HasAutoConfigLine(text)
    ensures SetAutoConfig(text, v) == text
    ensures AutoConfigOf(Split(SetAutoConfig(text, v), '\n')) == "1"
  {
    var lines := Split(text, '\n');
    assert SetAutoConfigLines(lines, v) == lines;
    SplitSpec(text, '\n');
  }

  /** `split` of a text with a line break appended has one more, empty, line. */
  lemma {:induction false} SplitWithTrailingSeparator(s: string, sep: char)
    ensures Split(s + [sep], sep) == Split(s, sep) + [""]
  {
    if s == [] {
      assert [sep][1..] == [];
    } else {
      assert (s + [sep])[1..] == s[1..] + [sep];
      SplitWithTrailingSeparator(s[1..], sep);
    }
  }

  /** A `key=value` line gives only its own field a value. */
  lemma TrackEntry(j: Field, v: string, k: Field)
    requires '=' !in v
    ensures Track(KeyName(j) + "=" + v, k) == if j == k then Nullable(v) else None
  {
    var line := KeyName(j) + "=" + v;
    ValueOfEntry(KeyName(j), v);
  }

  lemma LastSetOfEntry(j: Field, v: string, k: Field)
    requires '=' !in v
    ensures LastSet([KeyName(j) + "=" + v], k) == if j == k then Nullable(v) else None
  {
    TrackEntry(j, v, k);
    assert [KeyName(j) + "=" + v][..0] == [];
  }

  /** Reading the advanced-mode lines back gives each field its own value, the empty
      ones none. */
  lemma LastSetOfManualLines(s: string, b: string, v: string, k: Field)
    requires '=' !in s && '=' !in b && '=' !in v
    ensures LastSet(ManualLines(s, b, v), k) ==
      match k
      case All => None
      case System => Nullable(s)
      case Boot => Nullable(b)
      case Vendor => Nullable(v)
  {
    var sl := if s == "" then [] else ["system=" + s];
    var bl := if b == "" then [] else ["boot=" + b];
    var vl := if v == "" then [] else ["vendor=" + v];
    assert KeyName(System) + "=" == "system=" && KeyName(Boot) + "=" == "boot=" && KeyName(Vendor) + "=" == "vendor=";
    if s != "" { LastSetOfEntry(System, s, k); }
    if b != "" { LastSetOfEntry(Boot, b, k); }
    if v != "" { LastSetOfEntry(Vendor, v, k); }
    LastSetAppend(sl, bl, k);
    LastSetAppend(sl + bl, vl, k);
  }

  /** The lines the dialog reads back from a manual value, with or without the line
      break `echo` appends. */
  function ReadBackLines(f: Inputs, lineBreak: bool): seq<string>
    requires DecideSave(f).Manual?
  {
    Split(DecideSave(f).value + (if lineBreak then "\n" else ""), '\n')
  }

  /** The line break `echo` appends adds an empty last line, which sets nothing. */
  lemma ReadBackIgnoresLineBreak(f: Inputs, k: Field)
    requires DecideSave(f).Manual?
    ensures LastSet(ReadBackLines(f, true), k) == LastSet(ReadBackLines(f, false), k)
  {
    var value := DecideSave(f).value;
    SplitWithTrailingSeparator(value, '\n');
    assert value + "" == value;
    LastSetAppend(Split(value, '\n'), [""], k);
    assert !HasKey("", KeyName(k));
  }

  lemma ReadBackNormal(f: Inputs, k: Field)
    requires DecideSave(f).Manual? && !f.advanced
    ensures LastSet(ReadBackLines(f, false), k) == if k == All then Some(Trim(f.all)) else None
  {
    var value := DecideSave(f).value;
    assert value + "" == value;
    ManualValueLines(f);
    var a := Trim(f.all);
    ValidatedCharacters(a);
    assert KeyName(All) + "=" == "all=";
    LastSetOfEntry(All, a, k);
  }

  lemma ReadBackAdvanced(f: Inputs, k: Field)
    requires DecideSave(f).Manual? && f.advanced
    ensures LastSet(ReadBackLines(f, false), k) == if k == All then None else Nullable(Trim(f.Get(k)))
  {
    var value := DecideSave(f).value;
    assert value + "" == value;
    ManualValueLines(f);
    var s, b, v := Trim(f.system), Trim(f.boot), Trim(f.vendor);
    if s != "" { ValidatedCharacters(s); }
    if b != "" { ValidatedCharacters(b); }
    if v != "" { ValidatedCharacters(v); }
    LastSetOfManualLines(s, b, v, k);
  }

  lemma ReadBackLastSet(f: Inputs, lineBreak: bool, k: Field)
    requires DecideSave(f).Manual?
    ensures LastSet(ReadBackLines(f, lineBreak), k) ==
      if !f.advanced then (if k == All then Some(Trim(f.all)) else None)
      else if k == All then None
      else Nullable(Trim(f.Get(k)))
  {
    ReadBackIgnoresLineBreak(f, k);
    if f.advanced { ReadBackAdvanced(f, k); } else { ReadBackNormal(f, k); }
  }

  /** Round trip: after a successful manual save, with the settings file switched to
      `auto_config=0` and the manual file holding the value written (with or without
      `echo`'s line break), `loadCurrentConfig` puts each saved value, trimmed, back
      into its input; the inputs of the mode saved that were blank keep their text, the
      other mode's inputs stay empty, and the toggle is as it was. */
  lemma SaveReloadRoundTrip(f: Inputs, config: string, lineBreak: bool)
    requires DecideSave(f).Manual?
    requires HasAutoConfigLine(config)
    ensures var h := Reload(AfterSave(f, true), Some(SetAutoConfig(config, "0")),
                            Some(DecideSave(f).value + (if lineBreak then "\n" else "")));
      && h.advanced == f.advanced
      && h.all == (if f.advanced then "" else Trim(f.all))
      && h.system == (if !f.advanced then "" else if Trim(f.system) == "" then f.system else Trim(f.system))
      && h.boot == (if !f.advanced then "" else if Trim(f.boot) == "" then f.boot else Trim(f.boot))
      && h.vendor == (if !f.advanced then "" else if Trim(f.vendor) == "" then f.vendor else Trim(f.vendor))
  {
    SetAutoConfigReadsBack(config, "0");
    var lines := ReadBackLines(f, lineBreak);
    ReadBackLastSet(f, lineBreak, All);
    ReadBackLastSet(f, lineBreak, System);
    ReadBackLastSet(f, lineBreak, Boot);
    ReadBackLastSet(f, lineBreak, Vendor);
    var text := DecideSave(f).value + (if lineBreak then "\n" else "");
    assert text != "";
    if !f.advanced {
      var t := TrackedAfter(lines);
      assert t == TrackLine(lines[|lines| - 1]);
      if lineBreak {
        SplitWithTrailingSeparator(DecideSave(f).value, '\n');
        assert lines[|lines| - 1] == "";
        assert !HasKey("", KeyName(System)) && !HasKey("", KeyName(Boot)) && !HasKey("", KeyName(Vendor));
      } else {
        ManualValueLines(f);
        ValidatedCharacters(Trim(f.all));
        assert KeyName(All) + "=" == "all=";
        assert text == DecideSave(f).value;
        TrackEntry(All, Trim(f.all), All);
      }
    }
  }

  /** The final advanced-mode line names a device field and gives it a value. */
  lemma FinalManualLine(s: string, b: string, v: string)
    requires !(s == b == v == "")
    requires '=' !in s && '=' !in b && '=' !in v
    ensures var t := TrackedAfter(ManualLines(s, b, v));
      t.all == None && (Truthy(t.system) || Truthy(t.boot) || Truthy(t.vendor))
  {
    var lines := ManualLines(s, b, v);
    var last := lines[|lines| - 1];
    if v != "" {
      assert last == KeyName(Vendor) + "=" + v;
      TrackEntry(Vendor, v, All);
      TrackEntry(Vendor, v, Vendor);
    } else if b != "" {
      assert last == KeyName(Boot) + "=" + b;
      TrackEntry(Boot, b, All);
      TrackEntry(Boot, b, Boot);
    } else {
      assert last == KeyName(System) + "=" + s;
      TrackEntry(System, s, All);
      TrackEntry(System, s, System);
    }
  }

  /** A manual save always writes something. */
  lemma ManualValueNotEmpty(f: Inputs)
    requires DecideSave(f).Manual?
    ensures DecideSave(f).value != ""
  {
    ManualValueLines(f);
  }

  lemma FinalReadBackLine(f: Inputs, lineBreak: bool)
    requires DecideSave(f).Manual?
    ensures !EnablesAdvanced("0", TrackedAfter(ReadBackLines(f, lineBreak))) <==> !f.advanced || lineBreak
  {
    var value := DecideSave(f).value;
    var lines := ReadBackLines(f, lineBreak);
    if lineBreak {
      SplitWithTrailingSeparator(value, '\n');
      assert lines[|lines| - 1] == "";
      assert !HasKey("", KeyName(System)) && !HasKey("", KeyName(Boot)) && !HasKey("", KeyName(Vendor));
    } else {
      assert value + "" == value;
      ManualValueLines(f);
      if f.advanced {
        var s, b, v := Trim(f.system), Trim(f.boot), Trim(f.vendor);
        AdvancedModeDecision(f, f.all);
        if s != "" { ValidatedCharacters(s); }
        if b != "" { ValidatedCharacters(b); }
        if v != "" { ValidatedCharacters(v); }
        FinalManualLine(s, b, v);
      } else {
        ValidatedCharacters(Trim(f.all));
        assert KeyName(All) + "=" == "all=";
        TrackEntry(All, Trim(f.all), All);
      }
    }
  }

  /** A dialog opened after a successful manual save, with its toggle off, comes up in
      advanced mode exactly when the value was saved in advanced mode and read back
      without a trailing line break: the break leaves an empty final line, and only the
      final line decides the mode. */
  lemma ReopenedDialogMode(f: Inputs, g: Inputs, config: string, lineBreak: bool)
    requires DecideSave(f).Manual?
    requires HasAutoConfigLine(config)
    requires !g.advanced
    ensures Reload(g, Some(SetAutoConfig(config, "0")),
                   Some(DecideSave(f).value + (if lineBreak then "\n" else ""))).advanced
            <==> f.advanced && !lineBreak
  {
    SetAutoConfigReadsBack(config, "0");
    ManualValueNotEmpty(f);
    FinalReadBackLine(f, lineBreak);
  }

  /** Saving again straight after the reload writes the same value: the inputs hold
      the trimmed values, and trimming them again changes nothing. */
  lemma ResaveWritesSameValue(f: Inputs, config: string, lineBreak: bool)
    requires DecideSave(f).Manual?
    requires HasAutoConfigLine(config)
    ensures DecideSave(Reload(AfterSave(f, true), Some(SetAutoConfig(config, "0")),
                              Some(DecideSave(f).value + (if lineBreak then "\n" else ""))))
            == DecideSave(f)
  {
    SaveReloadRoundTrip(f, config, lineBreak);
    TrimIdempotent(f.all);
    TrimIdempotent(f.system);
    TrimIdempotent(f.boot);
    TrimIdempotent(f.vendor);
  }
}
