/**
 * The button palette `BUTTON_COLORS`: eight named colours that the
 * application updates in place, never adding or removing a name. Custom
 * colours are merged into it from the `customButtonColors` storage slot at
 * start-up and from an imported theme file; a theme reset writes the
 * defaults back; every change is saved to that slot again.
 */
module Colors {
  import opened Wrappers

  /** The palette's names, in the order `Object.keys` / `Object.values` visit them. */
  const PaletteKeys: seq<string> :=
    ["Background", "Foreground", "Button", "Foreground2", "Cyan", "Indigo", "Pink", "Teal"]

  const DefaultColors: map<string, string> := map[
    "Background" := "#FFFFFF",
    "Foreground" := "#000000",
    "Button" := "#9C27B0",
    "Foreground2" := "#FF9800",
    "Cyan" := "#00BCD4",
    "Indigo" := "#3F51B5",
    "Pink" := "#FF4081",
    "Teal" := "#009688"
  ]

  /** The names a palette holds: exactly those of the defaults. */
  predicate HasPaletteKeys(m: map<string, string>) {
    m.Keys == DefaultColors.Keys
  }

  /** PaletteKeys lists the default names, and only those. */
  lemma PaletteKeysMatchDefaults()
    ensures forall i :: 0 <= i < |PaletteKeys| ==> PaletteKeys[i] in DefaultColors
    ensures forall k :: k in DefaultColors ==> k in PaletteKeys
    ensures |PaletteKeys| == 8
  {
  }

  /**
   * The palette after merging `loaded` into `base` name by name: a name of
   * `base` takes the loaded colour when that colour is truthy (a non-empty
   * string); every other name keeps its colour, and names `base` lacks are
   * ignored.
   */
  function Merged(base: map<string, string>, loaded: map<string, string>): (r: map<string, string>)
    ensures r.Keys == base.Keys
    ensures forall k :: k in base && k in loaded && loaded[k] != "" ==> r[k] == loaded[k]
    ensures forall k :: k in base && (k !in loaded || loaded[k] == "") ==> r[k] == base[k]
  {
    map k | k in base :: if k in loaded && loaded[k] != "" then loaded[k] else base[k]
  }

  /** The merge as far as the names in `done`, which the merging loop has visited. */
  function MergedOn(base: map<string, string>, loaded: map<string, string>, done: seq<string>): map<string, string>
  {
    map k | k in base :: if k in done && k in loaded && loaded[k] != "" then loaded[k] else base[k]
  }

  lemma MergedOnStep(base: map<string, string>, loaded: map<string, string>, done: seq<string>, key: string)
    requires key in base
    ensures MergedOn(base, loaded, done + [key])
         == if key in loaded && loaded[key] != "" then MergedOn(base, loaded, done)[key := loaded[key]]
            else MergedOn(base, loaded, done)
  {
  }

  lemma PrefixStep(s: seq<string>, i: nat)
    requires i < |s|
    ensures s[..i + 1] == s[..i] + [s[i]]
  {
  }

  lemma MergedOnAll(base: map<string, string>, loaded: map<string, string>, done: seq<string>)
    requires forall k :: k in base ==> k in done
    ensures MergedOn(base, loaded, done) == Merged(base, loaded)
  {
  }

  lemma MergeIdempotent(base: map<string, string>, loaded: map<string, string>)
    ensures Merged(Merged(base, loaded), loaded) == Merged(base, loaded)
  {
  }

  /** The colours of `m` for the names `ks`, in that order (`Object.values`). */
  function ValuesOf(m: map<string, string>, ks: seq<string>): (vs: seq<string>)
    requires forall k :: k in ks ==> k in m
    ensures |vs| == |ks|
    ensures forall i :: 0 <= i < |ks| ==> vs[i] == m[ks[i]]
  {
    seq(|ks|, i requires 0 <= i < |ks| => m[ks[i]])
  }

  class Palette {
    /** `BUTTON_COLORS` */
    var colors: map<string, string>
    /** The `customButtonColors` storage slot, holding a palette once one has been saved. */
    var saved: Option<map<string, string>>

    ghost predicate Valid()
      reads this
    {
      HasPaletteKeys(colors)
    }

    /** The palette at page load: the defaults, with whatever the storage slot holds. */
    constructor (saved: Option<map<string, string>>)
      ensures Valid()
      ensures colors == DefaultColors && this.saved == saved
    {
      colors := DefaultColors;
      this.saved := saved;
    }

    /** `Object.values(BUTTON_COLORS)`: the eight colours, in palette order. */
    function Values(): (vs: seq<string>)
      reads this
      requires Valid()
      ensures |vs| == |PaletteKeys|
      ensures forall i :: 0 <= i < |vs| ==> vs[i] in colors.Values
    {
      PaletteKeysMatchDefaults();
      ValuesOf(colors, PaletteKeys)
    }

    /** `saveCustomColors`: the whole palette goes to the storage slot. */
    method SaveCustomColors()
      modifies this`saved
      ensures saved == Some(colors)
    {
      saved := Some(colors);
    }

    /** The `Object.keys(BUTTON_COLORS).forEach(...)` loop shared by start-up and theme import. */
    method MergeOverrides(loaded: map<string, string>)
      requires Valid()
      modifies this`colors
      ensures Valid()
      ensures colors == Merged(old(colors), loaded)
    {
      ghost var base := colors;
      var keys := PaletteKeys;
      PaletteKeysMatchDefaults();
      for i := 0 to |keys|
        invariant colors == MergedOn(base, loaded, keys[..i])
      {
        var key := keys[i];
        PrefixStep(keys, i);
        MergedOnStep(base, loaded, keys[..i], key);
        if key in loaded && loaded[key] != "" {
          colors := colors[key := loaded[key]];
        }
      }
      assert keys[..|keys|] == keys;
      MergedOnAll(base, loaded, keys);
    }

    /** `loadCustomColors`: merges the saved palette, if there is one; nothing is written back. */
    method LoadCustomColors()
      requires Valid()
      modifies this`colors
      ensures Valid()
      ensures colors == if saved.Some? then Merged(old(colors), saved.value) else old(colors)
    {
      if saved.Some? {
        MergeOverrides(saved.value);
      }
    }

    /**
     * The colour part of `ThemeManager.importTheme`: a file with a `colors`
     * object is merged in and the palette saved; a file without one changes
     * nothing.
     */
    method ImportColors(fileColors: Option<map<string, string>>)
      requires Valid()
      modifies this`colors, this`saved
      ensures Valid()
      ensures colors == if fileColors.Some? then Merged(old(colors), fileColors.value) else old(colors)
      ensures saved == if fileColors.Some? then Some(colors) else old(saved)
    {
      if fileColors.Some? {
        MergeOverrides(fileColors.value);
        SaveCustomColors();
      }
    }

    /** The colour part of `ThemeManager.reset`, when the user confirms it. */
    method Reset(confirmed: bool)
      requires Valid()
      modifies this`colors, this`saved
      ensures Valid()
      ensures colors == if confirmed then DefaultColors else old(colors)
      ensures saved == if confirmed then Some(DefaultColors) else old(saved)
    {
      if confirmed {
        colors := colors + DefaultColors;
        assert colors == DefaultColors;
        SaveCustomColors();
      }
    }

    /** The colour picker's pencil button: one named colour replaced, and the palette saved. */
    method EditColor(name: string, newColor: string)
      requires Valid() && name in colors
      modifies this`colors, this`saved
      ensures Valid()
      ensures colors == old(colors)[name := newColor]
      ensures saved == Some(colors)
    {
      colors := colors[name := newColor];
      SaveCustomColors();
    }
  }
}
