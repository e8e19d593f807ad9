/**
 * The style editor of one wall: a settings record initialised from
 * defaults and the stored settings, edited field by field, and saved to
 * the wall's `settings` column.
 */
module StyleEditor {
  import opened Basics
  import opened Rows

  /** The settings the editor holds. */
  datatype Settings = Settings(theme: string, accentColor: string, borderRadius: string)

  /** Settings as stored: any field may be missing. */
  datatype StoredSettings = StoredSettings(
    theme: Option<string>,
    accentColor: Option<string>,
    borderRadius: Option<string>)

  const Defaults: Settings := Settings("light", "#2563eb", "1.5rem")

  /** `{...base, ...stored}`: the fields present in `stored` win, the others come from `base`. */
  function Overlay(base: Settings, stored: StoredSettings): (r: Settings)
    ensures stored.theme.Some? ==> r.theme == stored.theme.value
    ensures stored.theme.None? ==> r.theme == base.theme
    ensures stored.accentColor.Some? ==> r.accentColor == stored.accentColor.value
    ensures stored.accentColor.None? ==> r.accentColor == base.accentColor
    ensures stored.borderRadius.Some? ==> r.borderRadius == stored.borderRadius.value
    ensures stored.borderRadius.None? ==> r.borderRadius == base.borderRadius
  {
    Settings(stored.theme.GetOr(base.theme),
             stored.accentColor.GetOr(base.accentColor),
             stored.borderRadius.GetOr(base.borderRadius))
  }

  /** Overlaying the same stored settings a second time changes nothing. */
  lemma OverlayIdempotent(base: Settings, stored: StoredSettings)
    ensures Overlay(Overlay(base, stored), stored) == Overlay(base, stored)
  {
  }

  /**
   * The initial state: each field from the stored settings when present,
   * otherwise `light`, `#2563eb` and `1.5rem`. A missing `initialSettings`
   * (`undefined` or `null`) spreads nothing.
   */
  function InitialSettings(initial: Option<StoredSettings>): (r: Settings)
    ensures r.theme == (if initial.Some? && initial.value.theme.Some? then initial.value.theme.value else "light")
    ensures r.accentColor ==
      (if initial.Some? && initial.value.accentColor.Some? then initial.value.accentColor.value else "#2563eb")
    ensures r.borderRadius ==
      (if initial.Some? && initial.value.borderRadius.Some? then initial.value.borderRadius.value else "1.5rem")
  {
    if initial.Some? then Overlay(Defaults, initial.value) else Defaults
  }

  // ---------------------------------------------------------------------
  // The corner-radius slider
  // ---------------------------------------------------------------------

  /** Slider positions: `min="0" max="3" step="0.5"`, counted in half steps. */
  type RadiusStep = n: nat | n <= 6

  function DigitChar(d: nat): (c: char)
    requires d <= 9
    ensures '0' <= c <= '9'
  {
    ('0' as int + d) as char
  }

  /** The slider's `value` string at a position: `0`, `0.5`, `1`, ..., `3`. */
  function SliderValue(step: RadiusStep): (v: string)
    ensures |v| == 1 || |v| == 3
    ensures IsDigit(v[0]) && (|v| == 3 <==> step % 2 == 1)
  {
    [DigitChar(step / 2)] + (if step % 2 == 1 then ".5" else "")
  }

  /** An ASCII decimal digit. */
  predicate IsDigit(c: char)
  {
    '0' <= c <= '9'
  }

  /** Position `k` of `s` cannot extend a number: past the end, or not a digit, `e` or `E`. */
  predicate EndsNumber(s: string, k: nat)
  {
    k >= |s| || !(IsDigit(s[k]) || s[k] == 'e' || s[k] == 'E')
  }

  /**
   * `parseFloat(settings.border_radius)` read as a slider position, for
   * radii made of one digit, optionally followed by `.`, `.5` or `.0`, and
   * then by nothing or a character other than a digit, `e` or `E`. `None`
   * when the number read is not one of the slider's positions 0, 0.5, ...,
   * 3, and when the radius does not have that form (more digits, an
   * exponent, or no number at all).
   */
  function ParseRadius(s: string): (p: Option<nat>)
    ensures p.Some? ==> p.value <= 6 && |s| > 0 && IsDigit(s[0])
    // the radius starts with the slider text of the position read, and a
    // whole position is not followed by `.5`
    ensures p.Some? ==> SliderValue(p.value) <= s
    ensures p.Some? && p.value % 2 == 0 ==> !(SliderValue(p.value) + ".5" <= s)
  {
    if |s| == 0 || !IsDigit(s[0]) then None
    else
      var whole := (s[0] as int - '0' as int) * 2;
      var halves :=
        if |s| >= 2 && s[1] == '.' then
          if |s| >= 3 && IsDigit(s[2]) then
            if !EndsNumber(s, 3) then None
            else if s[2] == '5' then Some(whole + 1)
            else if s[2] == '0' then Some(whole)
            else None
          else if EndsNumber(s, 2) then Some(whole)
          else None
        else if EndsNumber(s, 1) then Some(whole)
        else None;
      if halves.Some? && halves.value <= 6 then halves else None
  }

  /** Radii whose `parseFloat` is not a slider position, or is not read by this model, read as none. */
  lemma ParseRadiusRejectsOtherNumbers()
    ensures ParseRadius("12rem").None? && ParseRadius("1.55rem").None? && ParseRadius("1.05rem").None?
    ensures ParseRadius("1e1rem").None? && ParseRadius("1.5e1rem").None? && ParseRadius("1.e1").None?
    ensures ParseRadius("4rem").None? && ParseRadius("rem").None?
    ensures ParseRadius("1.rem") == Some(2)
  {
    assert "12rem"[1] == '2';
    assert "1.55rem"[3] == '5' && "1.05rem"[3] == '5';
    assert "1e1rem"[1] == 'e' && "1.5e1rem"[3] == 'e' && "1.e1"[2] == 'e';
    assert "4rem"[1] == 'r';
    assert "1.rem"[2] == 'r';
  }

  /** What the slider's handler stores: the value followed by `rem`. */
  function RadiusFor(step: RadiusStep): (r: string)
    ensures r == SliderValue(step) + "rem"
    ensures ParseRadius(r) == Some(step)
  {
    var r := SliderValue(step) + "rem";
    assert r[0] == DigitChar(step / 2);
    assert step % 2 == 1 ==> r[1] == '.' && r[2] == '5' && r[3] == 'r';
    assert step % 2 == 0 ==> r[1] == 'r';
    r
  }

  /** The default radius puts the slider at 1.5. */
  lemma DefaultRadiusStep()
    ensures ParseRadius(Defaults.borderRadius) == Some(3)
  {
  }

  /** The update sent to the backend: the whole settings record for one wall. */
  datatype SettingsUpdate = SettingsUpdate(wallId: Id, settings: Settings)

  /** `!wallId`: the id is missing or the empty string, both falsy. */
  predicate LacksWallId(wallId: Option<Id>)
  {
    wallId.None? || wallId.value == ""
  }

  class StyleEditorState {
    const wallId: Option<Id>
    var settings: Settings
    var saving: bool

    constructor (wallId: Option<Id>, initial: Option<StoredSettings>)
      ensures this.wallId == wallId
      ensures settings == InitialSettings(initial) && !saving
    {
      this.wallId := wallId;
      settings := InitialSettings(initial);
      saving := false;
    }

    /** The effect on `initialSettings`: merge the stored fields into the current settings. */
    method SyncInitialSettings(initial: Option<StoredSettings>)
      modifies this
      ensures settings == (if initial.Some? then Overlay(old(settings), initial.value) else old(settings))
      ensures saving == old(saving)
    {
      if initial.Some? {
        settings := Overlay(settings, initial.value);
      }
    }

    /** The theme buttons. */
    method SetTheme(theme: string)
      modifies this
      ensures settings == old(settings).(theme := theme)
      ensures saving == old(saving)
    {
      settings := settings.(theme := theme);
    }

    /** The accent colour swatches. */
    method SetAccentColor(color: string)
      modifies this
      ensures settings == old(settings).(accentColor := color)
      ensures saving == old(saving)
    {
      settings := settings.(accentColor := color);
    }

    /** The corner-radius slider. */
    method SetBorderRadius(step: RadiusStep)
      modifies this
      ensures settings == old(settings).(borderRadius := SliderValue(step) + "rem")
      ensures ParseRadius(settings.borderRadius) == Some(step)
      ensures saving == old(saving)
    {
      settings := settings.(borderRadius := RadiusFor(step));
    }

    /**
     * `saveStyles`. Without a wall id (missing or empty) nothing is sent and `saving` is left
     * alone. Otherwise the current settings are sent, `onUpdate` runs only
     * on success (and only when the parent passed one), and `saving` ends false.
     */
    method SaveStyles(result: Outcome, hasOnUpdate: bool) returns (sent: Option<SettingsUpdate>, updateCalled: bool)
      modifies this
      ensures settings == old(settings)
      ensures LacksWallId(wallId) ==> sent.None? && !updateCalled && saving == old(saving)
      ensures !LacksWallId(wallId) ==>
        sent == Some(SettingsUpdate(wallId.value, settings)) &&
        updateCalled == (result.Ok? && hasOnUpdate) &&
        !saving
    {
      if LacksWallId(wallId) {
        return None, false;
      }
      saving := true;
      sent := Some(SettingsUpdate(wallId.value, settings));
      updateCalled := result.Ok? && hasOnUpdate;
      saving := false;
    }
  }

  /** Mounting and then running the effect with the same stored settings keeps the initial state. */
  lemma MountEffectKeepsInitial(initial: Option<StoredSettings>)
    ensures initial.Some? ==> Overlay(InitialSettings(initial), initial.value) == InitialSettings(initial)
  {
  }
}
