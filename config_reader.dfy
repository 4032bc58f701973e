/** What `loadCurrentConfig` reads from the two files: the `auto_config` flag from the
    module's settings file, and the `key=value` lines of the manual security-patch
    file, which update the inputs and decide whether the dialog opens in advanced
    mode. The functions here are the specification the dialog's loop is proved
    against. */
module ConfigReader {
  import opened Wrappers
  import opened Text
  import opened DialogState

  /** `line.startsWith(key + '=')` */
  predicate HasKey(line: string, key: string) {
    StartsWith(line, key + "=")
  }

  /** `line.split('=')[1]` on a line that starts with `key=`. */
  function ValueOf(line: string, key: string): string
    requires HasKey(line, key)
  {
    assert line[|key|] == (key + "=")[|key|];
    SplitSpec(line, '=');
    Split(line, '=')[1]
  }

  /** The value of a `key=` line is the text between the first and the second `=`,
      or to the end of the line when there is no second `=`. */
  lemma ValueOfSpec(line: string, key: string)
    requires HasKey(line, key) && '=' !in key
    ensures var v := ValueOf(line, key);
      && '=' !in v
      && OccursAt(line, v, |key| + 1)
      && (|key| + 1 + |v| == |line| || line[|key| + 1 + |v|] == '=')
  {
    var rest := line[|key| + 1..];
    assert line == key + [['='][0]] + rest;
    SplitAfterPiece(key, '=', rest);
    var parts := Split(rest, '=');
    SplitSpec(rest, '=');
    if |parts| >= 2 {
      assert rest == parts[0] + ['='] + Join(parts[1..], '=');
    }
    assert line[|key| + 1..|key| + 1 + |parts[0]|] == parts[0];
  }

  /** A line written as `key=value` reads back as `value` when neither holds `=`. */
  lemma ValueOfEntry(key: string, v: string)
    requires '=' !in key && '=' !in v
    ensures HasKey(key + "=" + v, key)
    ensures ValueOf(key + "=" + v, key) == v
  {
    var line := key + "=" + v;
    assert line[..|key| + 1] == key + "=";
    assert line == key + ['='] + v;
    SplitAfterPiece(key, '=', v);
    SplitWithoutSeparator(v, '=');
  }

  const AutoConfigKey := "auto_config"

  /** Line `i` is the last one that starts with `key=`. */
  predicate IsLastWithKey(lines: seq<string>, i: int, key: string) {
    0 <= i < |lines| && HasKey(lines[i], key) && forall j :: i < j < |lines| ==> !HasKey(lines[j], key)
  }

  /** The `auto_config` flag: the value on the last `auto_config=` line, "1" when there
      is none. */
  function AutoConfigOf(lines: seq<string>): (auto: string)
    ensures (forall i :: 0 <= i < |lines| ==> !HasKey(lines[i], AutoConfigKey)) ==> auto == "1"
    ensures forall i :: IsLastWithKey(lines, i, AutoConfigKey) ==> auto == ValueOf(lines[i], AutoConfigKey)
  {
    if lines == [] then "1"
    else
      var last := lines[|lines| - 1];
      if HasKey(last, AutoConfigKey) then ValueOf(last, AutoConfigKey)
      else
        var init := lines[..|lines| - 1];
        assert forall i :: IsLastWithKey(lines, i, AutoConfigKey) ==> IsLastWithKey(init, i, AutoConfigKey);
        AutoConfigOf(init)
  }

  /** `value || null` */
  function Nullable(v: string): Option<string> {
    if v == "" then None else Some(v)
  }

  /** JavaScript truthiness of a string or null. */
  predicate Truthy(v: Option<string>) {
    v.Some? && v.value != ""
  }

  /** What one line sets the tracked variable of field `k` to: the line's value when
      it starts with `key=` (null for an empty value), null otherwise. */
  function Track(line: string, k: Field): Option<string> {
    if HasKey(line, KeyName(k)) then Nullable(ValueOf(line, KeyName(k))) else None
  }

  /** The variables `allValue`, `systemValue`, `bootValue` and `vendorValue`. */
  datatype Tracked = Tracked(all: Option<string>, system: Option<string>, boot: Option<string>, vendor: Option<string>)
  {
    function Get(k: Field): Option<string> {
      match k
      case All => all
      case System => system
      case Boot => boot
      case Vendor => vendor
    }
  }

  /** Their initial values, the string '0' each. */
  const Unread := Tracked(Some("0"), Some("0"), Some("0"), Some("0"))

  /** Their values when `auto_config` is '1'. */
  const Cleared := Tracked(None, None, None, None)

  function TrackLine(line: string): Tracked {
    Tracked(Track(line, All), Track(line, System), Track(line, Boot), Track(line, Vendor))
  }

  /** Every line overwrites all four variables, so after the loop they hold what the
      final line set. */
  function TrackedAfter(lines: seq<string>): (t: Tracked)
    ensures forall k :: t.Get(k).None? || t.Get(k).value != ""
  {
    if lines == [] then Unread else TrackLine(lines[|lines| - 1])
  }

  /** The last non-null value the lines give field `k`, which is what its input ends
      up holding; none when no line gives it one. */
  function LastSet(lines: seq<string>, k: Field): (v: Option<string>)
    ensures v.Some? ==> v.value != ""
  {
    if lines == [] then None
    else if Track(lines[|lines| - 1], k).Some? then Track(lines[|lines| - 1], k)
    else LastSet(lines[..|lines| - 1], k)
  }

  /** `LastSet` is the value of the last line that gives one, and none when no line
      does. */
  lemma {:induction false} LastSetSpec(lines: seq<string>, k: Field)
    ensures LastSet(lines, k).None? <==> forall i :: 0 <= i < |lines| ==> Track(lines[i], k).None?
    ensures LastSet(lines, k).Some? ==>
      exists i :: 0 <= i < |lines| && Track(lines[i], k) == LastSet(lines, k)
        && forall j :: i < j < |lines| ==> Track(lines[j], k).None?
  {
    if lines != [] && Track(lines[|lines| - 1], k).None? {
      var init := lines[..|lines| - 1];
      LastSetSpec(init, k);
      assert forall i :: 0 <= i < |init| ==> init[i] == lines[i];
    }
  }

  /** A line appended after others decides the value when it gives one; otherwise
      the earlier lines do. */
  lemma {:induction false} LastSetAppend(lines: seq<string>, more: seq<string>, k: Field)
    ensures LastSet(lines + more, k) == if LastSet(more, k).Some? then LastSet(more, k) else LastSet(lines, k)
    decreases |more|
  {
    if more != [] {
      var both := lines + more;
      assert both[|both| - 1] == more[|more| - 1];
      assert both[..|both| - 1] == lines + more[..|more| - 1];
      LastSetAppend(lines, more[..|more| - 1], k);
    } else {
      assert lines + more == lines;
    }
  }

  /** An input keeps its text unless the lines gave its field a value. */
  function Keep(current: string, v: Option<string>): string {
    if v.Some? then v.value else current
  }

  /** The advanced-mode condition checked at the end of `loadCurrentConfig`. */
  predicate EnablesAdvanced(auto: string, t: Tracked) {
    auto == "0" && t.all == None && (Truthy(t.boot) || Truthy(t.system) || Truthy(t.vendor))
  }

  /** The inputs after `loadCurrentConfig`, given what the two `cat` commands printed
      (none when the command failed, which ends the function). The toggle is only ever
      switched on. */
  function Reload(f: Inputs, config: Option<string>, tricky: Option<string>): (g: Inputs)
    ensures f.advanced ==> g.advanced
    ensures config.None? || tricky.None? ==> g == f
    ensures forall k :: g.Get(k) == f.Get(k) || g.Get(k) != ""
  {
    if config.None? || config.value == "" then f
    else
      var auto := AutoConfigOf(Split(config.value, '\n'));
      if auto == "1" then
        f.(advanced := f.advanced || EnablesAdvanced(auto, Cleared))
      else if tricky.None? then f
      else
        var lines := if tricky.value == "" then [] else Split(tricky.value, '\n');
        Inputs(
          f.advanced || EnablesAdvanced(auto, TrackedAfter(lines)),
          Keep(f.all, LastSet(lines, All)),
          Keep(f.system, LastSet(lines, System)),
          Keep(f.boot, LastSet(lines, Boot)),
          Keep(f.vendor, LastSet(lines, Vendor)))
  }

  /** With `auto_config` at '1' (or absent) nothing in the dialog changes, whatever the
      manual file holds. */
  lemma AutoConfigOneKeepsInputs(f: Inputs, config: string, tricky: Option<string>)
    requires config != "" && AutoConfigOf(Split(config, '\n')) == "1"
    ensures Reload(f, Some(config), tricky) == f
  {
  }

  /** The toggle is switched on only when `auto_config` is '0' and the manual file's
      final line is a `system=`, `boot=` or `vendor=` line with a value; every earlier
      line is irrelevant to it. */
  lemma AdvancedOnlyFromFinalLine(f: Inputs, config: string, tricky: string)
    requires !f.advanced && Reload(f, Some(config), Some(tricky)).advanced
    ensures config != "" && AutoConfigOf(Split(config, '\n')) == "0"
    ensures tricky != ""
    ensures var last := Split(tricky, '\n')[|Split(tricky, '\n')| - 1];
      exists k :: k != All && HasKey(last, KeyName(k)) && ValueOf(last, KeyName(k)) != ""
  {
    var last := Split(tricky, '\n')[|Split(tricky, '\n')| - 1];
    var t := TrackLine(last);
    if Truthy(t.boot) {
      assert HasKey(last, KeyName(Boot));
    } else if Truthy(t.system) {
      assert HasKey(last, KeyName(System));
    } else {
      assert HasKey(last, KeyName(Vendor));
    }
  }

  /** A manual file whose text ends with a line break never switches the toggle on:
      its final line is empty, and an empty line nulls every tracked value. */
  lemma TrailingLineBreakKeepsToggle(f: Inputs, config: Option<string>, tricky: string)
    requires tricky != "" && tricky[|tricky| - 1] == '\n'
    ensures Reload(f, config, Some(tricky)).advanced == f.advanced
  {
    var parts := Split(tricky, '\n');
    var last := parts[|parts| - 1];
    LastPieceIsTail(tricky, '\n');
    SplitSpec(tricky, '\n');
    assert !HasKey("", KeyName(All)) && !HasKey("", KeyName(System));
    assert !HasKey("", KeyName(Boot)) && !HasKey("", KeyName(Vendor));
    assert TrackLine(last) == Cleared;
  }

  /** The final piece of a split is a suffix of the text, so it is empty when the text
      ends with the separator. */
  lemma {:induction false} LastPieceIsTail(s: string, sep: char)
    ensures var parts := Split(s, sep);
      |parts[|parts| - 1]| <= |s| && parts[|parts| - 1] == s[|s| - |parts[|parts| - 1]|..]
  {
    if s != [] {
      var rest := Split(s[1..], sep);
      LastPieceIsTail(s[1..], sep);
      var parts := Split(s, sep);
      if s[0] != sep && |rest| == 1 {
        SplitSpec(s[1..], sep);
        assert parts == [[s[0]] + s[1..]];
      } else {
        assert parts[|parts| - 1] == rest[|rest| - 1];
      }
    }
  }
}
