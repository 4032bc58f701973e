/** The save button of the security-patch dialog: from the toggle and the trimmed
    inputs it decides to disable the manual value, to reject one input, or to write a
    manual value, and then it updates the inputs. */
module SavePatch {
  import opened Text
  import opened Validators
  import opened DialogState

  datatype Action =
    | Disable               // handleSecurityPatch('disable'): the manual value is removed
    | Reject(field: Field)  // the input failed its check; nothing is written
    | Manual(value: string) // handleSecurityPatch('manual', value)

  /** The message key shown when `k` fails its check. */
  function ErrorKey(k: Field): string {
    "security_patch.invalid_" + KeyName(k)
  }

  /** `value ? `${key}=${value}` : ''` */
  function Entry(k: Field, v: string): string {
    if v == "" then "" else KeyName(k) + "=" + v
  }

  /** `filter(Boolean)` on strings: drops the empty ones and keeps the order. */
  function DropEmpty(xs: seq<string>): (r: seq<string>)
    ensures |r| <= |xs|
    ensures forall i :: 0 <= i < |r| ==> r[i] != ""
    ensures forall x :: x in r <==> x in xs && x != ""
  {
    if xs == [] then []
    else (if xs[0] == "" then [] else [xs[0]]) + DropEmpty(xs[1..])
  }

  /** The advanced-mode file content: one `key=value` line per non-empty value, in the
      order system, boot, vendor. */
  function AdvancedValue(system: string, boot: string, vendor: string): (r: string)
    ensures r == "" <==> system == "" && boot == "" && vendor == ""
  {
    DropEmptyOfThree(Entry(System, system), Entry(Boot, boot), Entry(Vendor, vendor));
    Join(DropEmpty([Entry(System, system), Entry(Boot, boot), Entry(Vendor, vendor)]), '\n')
  }

  /** The decision of the save button, checks in the order the handler makes them. */
  function DecideSave(f: Inputs): (a: Action)
    ensures a.Reject? ==> (a.field == All <==> !f.advanced) && !Passes(a.field, Trim(f.Get(a.field)))
    ensures a.Manual? ==> a.value != ""
  {
    if !f.advanced then
      var all := Trim(f.all);
      if all == "" then Disable
      else if !IsValid8Digit(all) then Reject(All)
      else Manual("all=" + all)
    else
      var boot, system, vendor := Trim(f.boot), Trim(f.system), Trim(f.vendor);
      if boot == "" && system == "" && vendor == "" then Disable
      else if system != "" && !IsValid6Digit(system) then Reject(System)
      else if boot != "" && !IsValidDateFormat(boot) then Reject(Boot)
      else if vendor != "" && !IsValidDateFormat(vendor) then Reject(Vendor)
      else Manual(AdvancedValue(system, boot, vendor))
  }

  /** The check the save button applies to input `k`; an empty input is skipped. */
  predicate Passes(k: Field, v: string) {
    v == "" ||
    match k
    case All => IsValid8Digit(v)
    case System => IsValid6Digit(v)
    case Boot => IsValidDateFormat(v)
    case Vendor => IsValidDateFormat(v)
  }

  /** Normal mode: a blank "all" input disables the manual value without any check; an
      input that is not eight digits is rejected with the "all" error; otherwise the
      value written is `all=` and the trimmed input. The advanced inputs play no part. */
  lemma NormalModeDecision(f: Inputs, system: string, boot: string, vendor: string)
    requires !f.advanced
    ensures DecideSave(f) == Disable <==> IsBlank(f.all)
    ensures DecideSave(f) == Reject(All) <==> !IsBlank(f.all) && !Passes(All, Trim(f.all))
    ensures DecideSave(f).Manual? <==> !IsBlank(f.all) && Passes(All, Trim(f.all))
    ensures DecideSave(f).Manual? ==> DecideSave(f).value == "all=" + Trim(f.all)
    ensures DecideSave(f.(system := system, boot := boot, vendor := vendor)) == DecideSave(f)
  {
    TrimSpec(f.all);
  }

  /** Advanced mode: three blank inputs disable the manual value; otherwise the
      non-empty inputs are checked in the order system, boot, vendor and the first that
      fails is the one reported; when none fails a manual value is written. The "all"
      input plays no part. */
  lemma AdvancedModeDecision(f: Inputs, all: string)
    requires f.advanced
    ensures var s, b, v := Trim(f.system), Trim(f.boot), Trim(f.vendor);
      && (DecideSave(f) == Disable <==> IsBlank(f.system) && IsBlank(f.boot) && IsBlank(f.vendor))
      && (DecideSave(f) == Reject(System) <==> !Passes(System, s))
      && (DecideSave(f) == Reject(Boot) <==> Passes(System, s) && !Passes(Boot, b))
      && (DecideSave(f) == Reject(Vendor) <==>
            Passes(System, s) && Passes(Boot, b) && !Passes(Vendor, v))
      && (DecideSave(f).Manual? <==>
            !(s == b == v == "") && Passes(System, s) && Passes(Boot, b) && Passes(Vendor, v))
      && DecideSave(f) != Reject(All)
    ensures DecideSave(f.(all := all)) == DecideSave(f)
  {
    TrimSpec(f.system);
    TrimSpec(f.boot);
    TrimSpec(f.vendor);
  }

  /** The lines of an advanced-mode value as a plain concatenation. */
  function ManualLines(system: string, boot: string, vendor: string): seq<string> {
    (if system == "" then [] else ["system=" + system])
    + (if boot == "" then [] else ["boot=" + boot])
    + (if vendor == "" then [] else ["vendor=" + vendor])
  }

  lemma DropEmptyOfThree(x: string, y: string, z: string)
    ensures DropEmpty([x, y, z]) ==
              (if x == "" then [] else [x]) + (if y == "" then [] else [y]) + (if z == "" then [] else [z])
  {
    assert [x, y, z][1..] == [y, z];
    assert [y, z][1..] == [z];
    assert [z][1..] == [];
    assert DropEmpty([z]) == (if z == "" then [] else [z]) + DropEmpty([]);
    assert DropEmpty([y, z]) == (if y == "" then [] else [y]) + DropEmpty([z]);
  }

  /** The manual value, read back line by line: normal mode writes the single line
      `all=<value>`; advanced mode writes one `key=value` line for each non-empty input,
      system first, then boot, then vendor, with no empty line between them. */
  lemma ManualValueLines(f: Inputs)
    requires DecideSave(f).Manual?
    ensures var s, b, v := Trim(f.system), Trim(f.boot), Trim(f.vendor);
      Split(DecideSave(f).value, '\n') ==
        if !f.advanced then ["all=" + Trim(f.all)] else ManualLines(s, b, v)
  {
    var s, b, v := Trim(f.system), Trim(f.boot), Trim(f.vendor);
    if !f.advanced {
      var a := Trim(f.all);
      ValidatedCharacters(a);
      EntryHasNoLineBreak(All, a);
      assert KeyName(All) + "=" == "all=";
      SplitWithoutSeparator(Entry(All, a), '\n');
    } else {
      if s != "" { ValidatedCharacters(s); }
      if b != "" { ValidatedCharacters(b); }
      if v != "" { ValidatedCharacters(v); }
      AdvancedValueLines(s, b, v);
    }
  }

  lemma AdvancedValueLines(s: string, b: string, v: string)
    requires !(s == b == v == "")
    requires '\n' !in s && '\n' !in b && '\n' !in v
    ensures Split(AdvancedValue(s, b, v), '\n') == ManualLines(s, b, v)
  {
    EntryHasNoLineBreak(System, s);
    EntryHasNoLineBreak(Boot, b);
    EntryHasNoLineBreak(Vendor, v);
    var entries := [Entry(System, s), Entry(Boot, b), Entry(Vendor, v)];
    var lines := DropEmpty(entries);
    forall i | 0 <= i < |lines| ensures '\n' !in lines[i] {
      assert lines[i] in entries;
    }
    DropEmptyOfThree(Entry(System, s), Entry(Boot, b), Entry(Vendor, v));
    assert KeyName(System) + "=" == "system=";
    assert KeyName(Boot) + "=" == "boot=";
    assert KeyName(Vendor) + "=" == "vendor=";
    assert lines == ManualLines(s, b, v);
    SplitJoin(lines, '\n');
  }

  lemma EntryHasNoLineBreak(k: Field, v: string)
    requires '\n' !in v
    ensures '\n' !in Entry(k, v)
  {
  }

  /** The characters a manual value can hold: digits, `-`, `=`, line feeds and the
      lower-case letters of the keys and of the sentinels "no" and "prop". */
  predicate IsManualChar(c: char) {
    IsValueChar(c) || c == '=' || c == '\n' || c in "all" || c in "system" || c in "boot" || c in "vendor"
  }

  lemma EntryChars(k: Field, v: string)
    requires forall i :: 0 <= i < |v| ==> IsValueChar(v[i])
    ensures forall i :: 0 <= i < |Entry(k, v)| ==> IsManualChar(Entry(k, v)[i])
  {
    if v != "" {
      var e := Entry(k, v);
      var key := KeyName(k);
      forall i | 0 <= i < |e| ensures IsManualChar(e[i]) {
        if i < |key| {
          assert e[i] == key[i];
        } else if i > |key| {
          assert e[i] == v[i - |key| - 1];
        }
      }
    }
  }

  /** Every manual value is made of those characters only, so none holds `"`, `$`,
      a backquote or a backslash: written inside `echo "${value}"` it stays one quoted
      word. */
  lemma ManualValueIsShellSafe(f: Inputs)
    requires DecideSave(f).Manual?
    ensures forall i :: 0 <= i < |DecideSave(f).value| ==> IsManualChar(DecideSave(f).value[i])
    ensures var t := DecideSave(f).value; '"' !in t && '$' !in t && '`' !in t && '\\' !in t
  {
    var t := DecideSave(f).value;
    if !f.advanced {
      ValidatedCharacters(Trim(f.all));
      EntryChars(All, Trim(f.all));
    } else {
      var s, b, v := Trim(f.system), Trim(f.boot), Trim(f.vendor);
      if s != "" { ValidatedCharacters(s); }
      if b != "" { ValidatedCharacters(b); }
      if v != "" { ValidatedCharacters(v); }
      AdvancedValueChars(s, b, v);
    }
    ManualCharsAreQuoteSafe(t);
  }

  lemma AdvancedValueChars(s: string, b: string, v: string)
    requires forall i :: 0 <= i < |s| ==> IsValueChar(s[i])
    requires forall i :: 0 <= i < |b| ==> IsValueChar(b[i])
    requires forall i :: 0 <= i < |v| ==> IsValueChar(v[i])
    ensures forall i :: 0 <= i < |AdvancedValue(s, b, v)| ==> IsManualChar(AdvancedValue(s, b, v)[i])
  {
    EntryChars(System, s);
    EntryChars(Boot, b);
    EntryChars(Vendor, v);
    var entries := [Entry(System, s), Entry(Boot, b), Entry(Vendor, v)];
    var lines := DropEmpty(entries);
    forall i, k | 0 <= i < |lines| && 0 <= k < |lines[i]| ensures IsManualChar(lines[i][k]) {
      assert lines[i] in entries;
    }
    JoinWithin(lines, '\n', IsManualChar);
  }

  lemma ManualCharsAreQuoteSafe(t: string)
    requires forall i :: 0 <= i < |t| ==> IsManualChar(t[i])
    ensures '"' !in t && '$' !in t && '`' !in t && '\\' !in t
  {
    forall i | 0 <= i < |t| ensures t[i] != '"' && t[i] != '$' && t[i] != '`' && t[i] != '\\' {
      assert IsManualChar(t[i]);
    }
  }

  /** The inputs after the handler: only a successful manual write changes them, it
      clears them, and only those of the mode not in use; the toggle never changes. */
  function AfterSave(f: Inputs, writeOk: bool): (g: Inputs)
    ensures g.advanced == f.advanced
    ensures forall k :: g.Get(k) == f.Get(k) || g.Get(k) == ""
    ensures forall k :: g.Get(k) != f.Get(k) ==> DecideSave(f).Manual? && writeOk && (k == All <==> f.advanced)
    ensures DecideSave(f).Manual? && writeOk ==> forall k :: (k == All <==> f.advanced) ==> g.Get(k) == ""
  {
    if DecideSave(f).Manual? && writeOk then
      if f.advanced then f.(all := "") else f.(system := "", boot := "", vendor := "")
    else f
  }

  /** The message shown once the handler is done. */
  datatype Prompt = Prompt(key: string, success: bool)

  function PromptFor(a: Action, writeOk: bool): (p: Prompt)
    ensures p.success <==> !a.Reject? && writeOk
    ensures a.Reject? ==> p.key == ErrorKey(a.field)
    ensures !a.Reject? && !writeOk ==> p.key == "security_patch.save_failed"
    ensures a == Disable && writeOk ==> p.key == "security_patch.value_empty"
    ensures a.Manual? && writeOk ==> p.key == "security_patch.save_success"
  {
    match a
    case Disable =>
      if writeOk then Prompt("security_patch.value_empty", true) else Prompt("security_patch.save_failed", false)
    case Reject(k) => Prompt(ErrorKey(k), false)
    case Manual(_) =>
      if writeOk then Prompt("security_patch.save_success", true) else Prompt("security_patch.save_failed", false)
  }
}
