/** The security-patch dialog as an object: the toggle and the four inputs are fields
    that its handlers update in place. File contents and the success of the shell
    commands are parameters. */
module Dialog {
  import opened Wrappers
  import opened Text
  import opened DialogState
  import opened SavePatch
  import opened ConfigReader

  /** The loop of `loadCurrentConfig` over the settings file's lines: the last
      `auto_config=` line wins, and '1' stands when there is none. */
  method ReadAutoConfig(lines: seq<string>) returns (autoConfig: string)
    ensures autoConfig == AutoConfigOf(lines)
  {
    autoConfig := "1";
    for i := 0 to |lines|
      invariant autoConfig == AutoConfigOf(lines[..i])
    {
      if HasKey(lines[i], AutoConfigKey) {
        autoConfig := ValueOf(lines[i], AutoConfigKey);
      }
      assert lines[..i + 1][..i] == lines[..i];
    }
    assert lines[..|lines|] == lines;
  }

  class PatchDialog {
    var advanced: bool  // advancedToggle.checked
    var all: string     // allPatchInput.value
    var system: string  // systemPatchInput.value
    var boot: string    // bootPatchInput.value
    var vendor: string  // vendorPatchInput.value

    function Snapshot(): Inputs
      reads this
    {
      Inputs(advanced, all, system, boot, vendor)
    }

    /** `loadCurrentConfig`, given what `cat` printed for the settings file and for the
        manual security-patch file (none where the command failed). The manual file is
        only looked at when `auto_config` is not '1'. */
    method LoadCurrentConfig(config: Option<string>, tricky: Option<string>)
      modifies this
      ensures Snapshot() == Reload(old(Snapshot()), config, tricky)
    {
      if config.None? || config.value == "" {
        return;
      }
      var autoConfig := ReadAutoConfig(Split(config.value, '\n'));
      var tracked := Unread;
      if autoConfig == "1" {
        tracked := Cleared;
      } else {
        if tricky.None? {
          return;
        }
        if tricky.value != "" {
          tracked := ReadManualLines(Split(tricky.value, '\n'));
        }
      }
      if autoConfig == "0" && tracked.all == None
         && (Truthy(tracked.boot) || Truthy(tracked.system) || Truthy(tracked.vendor)) {
        advanced := true;
      }
    }

    /** The loop of `loadCurrentConfig` over the manual file's lines: every line
        overwrites the four tracked values, and a non-empty value also goes into its
        input. */
    method ReadManualLines(lines: seq<string>) returns (tracked: Tracked)
      modifies this
      ensures tracked == TrackedAfter(lines)
      ensures Snapshot() == old(Snapshot()).(
        all := Keep(old(all), LastSet(lines, All)),
        system := Keep(old(system), LastSet(lines, System)),
        boot := Keep(old(boot), LastSet(lines, Boot)),
        vendor := Keep(old(vendor), LastSet(lines, Vendor)))
    {
      var allValue, systemValue, bootValue, vendorValue := Some("0"), Some("0"), Some("0"), Some("0");
      for i := 0 to |lines|
        invariant Tracked(allValue, systemValue, bootValue, vendorValue) == TrackedAfter(lines[..i])
        invariant all == Keep(old(all), LastSet(lines[..i], All))
        invariant system == Keep(old(system), LastSet(lines[..i], System))
        invariant boot == Keep(old(boot), LastSet(lines[..i], Boot))
        invariant vendor == Keep(old(vendor), LastSet(lines[..i], Vendor))
        invariant advanced == old(advanced)
      {
        var line := lines[i];
        assert lines[..i + 1][..i] == lines[..i];
        if HasKey(line, KeyName(All)) {
          allValue := Nullable(ValueOf(line, KeyName(All)));
          if allValue.Some? { all := allValue.value; }
        } else {
          allValue := None;
        }
        if HasKey(line, KeyName(System)) {
          systemValue := Nullable(ValueOf(line, KeyName(System)));
          if systemValue.Some? { system := systemValue.value; }
        } else {
          systemValue := None;
        }
        if HasKey(line, KeyName(Boot)) {
          bootValue := Nullable(ValueOf(line, KeyName(Boot)));
          if bootValue.Some? { boot := bootValue.value; }
        } else {
          bootValue := None;
        }
        if HasKey(line, KeyName(Vendor)) {
          vendorValue := Nullable(ValueOf(line, KeyName(Vendor)));
          if vendorValue.Some? { vendor := vendorValue.value; }
        } else {
          vendorValue := None;
        }
      }
      assert lines[..|lines|] == lines;
      tracked := Tracked(allValue, systemValue, bootValue, vendorValue);
    }

    /** The work of the save button up to the reload: decide, write (`writeOk` says
        whether the shell command succeeded), clear the other mode's inputs after a
        successful manual write, and say which message is shown and whether
        `loadCurrentConfig` follows (it does after every manual write). */
    method Save(writeOk: bool) returns (action: Action, prompt: Prompt, reloads: bool)
      modifies this
      ensures action == DecideSave(old(Snapshot()))
      ensures Snapshot() == AfterSave(old(Snapshot()), writeOk)
      ensures prompt == PromptFor(action, writeOk)
      ensures reloads <==> action.Manual?
    {
      action := DecideSave(Snapshot());
      prompt := PromptFor(action, writeOk);
      reloads := action.Manual?;
      if action.Manual? && writeOk {
        if advanced {
          all := "";
        } else {
          system, boot, vendor := "", "", "";
        }
      }
    }

    /** The save button's click handler, with the reload that follows a manual write
        reading `config` and `tricky`. */
    method SaveClicked(writeOk: bool, config: Option<string>, tricky: Option<string>)
      returns (action: Action, prompt: Prompt)
      modifies this
      ensures action == DecideSave(old(Snapshot()))
      ensures prompt == PromptFor(action, writeOk)
      ensures Snapshot() == if action.Manual? then Reload(AfterSave(old(Snapshot()), writeOk), config, tricky)
                            else old(Snapshot())
    {
      var reloads;
      action, prompt, reloads := Save(writeOk);
      if reloads {
        LoadCurrentConfig(config, tricky);
      }
    }

    /** The auto-config button: `output` is what `get_extra.sh --security-patch`
        printed (none if it failed), `sedOk` whether switching `auto_config` to 1
        succeeded. On success the four inputs are emptied. */
    method AutoConfigure(output: Option<string>, sedOk: bool) returns (prompt: Prompt)
      modifies this
      ensures prompt.success <==> output.Some? && Trim(output.value) != "not set" && sedOk
      ensures prompt.key == if prompt.success then "security_patch.auto_success" else "security_patch.auto_failed"
      ensures Snapshot() == if prompt.success then old(Snapshot()).(all := "", system := "", boot := "", vendor := "")
                            else old(Snapshot())
    {
      if output.None? || Trim(output.value) == "not set" || !sedOk {
        prompt := Prompt("security_patch.auto_failed", false);
      } else {
        all, system, boot, vendor := "", "", "", "";
        prompt := Prompt("security_patch.auto_success", true);
      }
    }

    /** The auto-config button's click handler: the dialog reloads in every case. */
    method AutoConfigClicked(output: Option<string>, sedOk: bool, config: Option<string>, tricky: Option<string>)
      returns (prompt: Prompt)
      modifies this
      ensures prompt.success <==> output.Some? && Trim(output.value) != "not set" && sedOk
      ensures Snapshot() == Reload(
        if prompt.success then old(Snapshot()).(all := "", system := "", boot := "", vendor := "") else old(Snapshot()),
        config, tricky)
    {
      prompt := AutoConfigure(output, sedOk);
      LoadCurrentConfig(config, tricky);
    }
  }
}
