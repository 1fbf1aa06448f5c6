/**
 * The server's conversion of stored settings overrides from older addon
 * versions: the `maya_dirmap` key renamed to `dirmap` (0.4.3), and the
 * Redshift `gi_enabled` flag derived from the two GI engines (0.4.4). Both
 * change the overrides dict in place.
 */
module SettingsConversion {
  import opened Strs
  import opened PyData

  // ---------------------------------------------------------------------
  // The conversions on dict values

  const LegacyDirmap: string := "maya_dirmap"
  const Dirmap: string := "dirmap"

  /** `_convert_dirmap_0_4_3`: without legacy settings, or with new ones already, nothing changes. */
  function DirmapConverted(o: Entries<Value>): Entries<Value> {
    if !HasKey(o, LegacyDirmap) then o
    else if HasKey(o, Dirmap) then o
    else Put(Remove(o, LegacyDirmap), Dirmap, Get(o, LegacyDirmap).value)
  }

  /** `redshift_settings.get(engine, "0") != "0"` for either engine. */
  predicate GiEngineOn(redshift: Entries<Value>) {
    !PyEq(GetOr(redshift, "primary_gi_engine", VStr("0")), VStr("0")) ||
    !PyEq(GetOr(redshift, "secondary_gi_engine", VStr("0")), VStr("0"))
  }

  /**
   * `_convert_redshift_render_settings_gi_0_4_4`: a missing (or None) level
   * ends it; a level that is not a dict raises `AttributeError` on `.get`
   * (or `TypeError` on `in` for a number); an existing `gi_enabled` is left
   * alone; otherwise `gi_enabled` becomes True, in the nested dict in place,
   * when either engine is on.
   */
  function GiConverted(o: Entries<Value>): Result<Entries<Value>> {
    var rs := GetOr(o, "render_settings", VNone);
    if rs.VNone? then Ok(o)
    else if !rs.VDict? then Err("AttributeError")
    else
      var redshift := GetOr(rs.entries, "redshift_renderer", VNone);
      if redshift.VNone? then Ok(o)
      else if !redshift.VDict? then
        // `in` works on a string or a sequence and finding the key returns early; `.get` then raises
        if redshift.VStr? then (if Contains(redshift.s, "gi_enabled") then Ok(o) else Err("AttributeError"))
        else if redshift.VList? || redshift.VTuple? then
          (if PyIn(VStr("gi_enabled"), redshift.items) then Ok(o) else Err("AttributeError"))
        else Err("TypeError")
      else if HasKey(redshift.entries, "gi_enabled") then Ok(o)
      else if !GiEngineOn(redshift.entries) then Ok(o)
      else
        var newRedshift := Put(redshift.entries, "gi_enabled", VBool(true));
        Ok(Put(o, "render_settings", VDict(Put(rs.entries, "redshift_renderer", VDict(newRedshift)))))
  }

  /** `convert_settings_overrides`: both conversions in turn; the source version plays no part. */
  function Converted(o: Entries<Value>): Result<Entries<Value>> {
    GiConverted(DirmapConverted(o))
  }

  // ---------------------------------------------------------------------
  // The dict the conversions change

  class SettingsOverrides {
    var entries: Entries<Value>

    constructor(entries: Entries<Value>)
      ensures this.entries == entries
    {
      this.entries := entries;
    }

    method ConvertDirmap()
      modifies this
      ensures entries == DirmapConverted(old(entries))
    {
      if !HasKey(entries, LegacyDirmap) {
        return;
      }
      if HasKey(entries, Dirmap) {
        return;
      }
      var value := Get(entries, LegacyDirmap).value;
      entries := Remove(entries, LegacyDirmap);
      entries := Put(entries, Dirmap, value);
    }

    /** Returns the exception raised, if any; the dict is unchanged then. */
    method ConvertRedshiftGi() returns (error: Option<string>)
      modifies this
      ensures GiConverted(old(entries)).Ok? ==> error.None? && entries == GiConverted(old(entries)).value
      ensures GiConverted(old(entries)).Err? ==> error == Some(GiConverted(old(entries)).error) && entries == old(entries)
    {
      var r := GiConverted(entries);
      if r.Err? {
        return Some(r.error);
      }
      entries := r.value;
      error := None;
    }

    /** Converts in place and returns the very same dict. */
    method ConvertSettingsOverrides(sourceVersion: string) returns (r: SettingsOverrides, error: Option<string>)
      modifies this
      ensures r == this
      ensures Converted(old(entries)).Ok? ==> error.None? && entries == Converted(old(entries)).value
      ensures Converted(old(entries)).Err? ==> error == Some(Converted(old(entries)).error) && entries == DirmapConverted(old(entries))
    {
      ConvertDirmap();
      error := ConvertRedshiftGi();
      r := this;
    }
  }

  // ---------------------------------------------------------------------
  // What the conversions promise

  lemma HasKeyPut(d: Entries<Value>, k: string, v: Value, k2: string)
    ensures HasKey(Put(d, k, v), k2) <==> HasKey(d, k2) || k2 == k
  {
    GetPut(d, k, v, k2);
  }

  /**
   * Legacy settings alone are renamed: `dirmap` then holds the old value,
   * `maya_dirmap` is gone and every other key keeps its value.
   */
  lemma DirmapRenamed(o: Entries<Value>, k: string)
    requires HasKey(o, LegacyDirmap) && !HasKey(o, Dirmap)
    ensures Get(DirmapConverted(o), Dirmap) == Get(o, LegacyDirmap)
    ensures !HasKey(DirmapConverted(o), LegacyDirmap)
    ensures k != Dirmap && k != LegacyDirmap ==> Get(DirmapConverted(o), k) == Get(o, k)
  {
    var removed := Remove(o, LegacyDirmap);
    var v := Get(o, LegacyDirmap).value;
    GetPut(removed, Dirmap, v, Dirmap);
    GetPut(removed, Dirmap, v, LegacyDirmap);
    GetPut(removed, Dirmap, v, k);
  }

  /** With new settings present nothing changes, and any leftover `maya_dirmap` stays. */
  lemma DirmapKept(o: Entries<Value>)
    requires HasKey(o, Dirmap)
    ensures DirmapConverted(o) == o
  { }

  /** Renaming twice is renaming once. */
  lemma DirmapIdempotent(o: Entries<Value>)
    ensures DirmapConverted(DirmapConverted(o)) == DirmapConverted(o)
  {
    if HasKey(o, LegacyDirmap) && !HasKey(o, Dirmap) {
      HasKeyPut(Remove(o, LegacyDirmap), Dirmap, Get(o, LegacyDirmap).value, Dirmap);
    }
  }

  /**
   * When both levels are dicts and `gi_enabled` is new, it is set to True
   * exactly when either engine (default `"0"`) differs from `"0"`; it is
   * never set to False.
   */
  lemma GiEnabledIff(o: Entries<Value>, rs: Entries<Value>, redshift: Entries<Value>)
    requires Get(o, "render_settings") == Some(VDict(rs))
    requires Get(rs, "redshift_renderer") == Some(VDict(redshift))
    requires !HasKey(redshift, "gi_enabled")
    ensures GiConverted(o).Ok?
    ensures var r := GiConverted(o).value;
      GiEngineOn(redshift) <==>
        Get(r, "render_settings") == Some(VDict(Put(rs, "redshift_renderer", VDict(Put(redshift, "gi_enabled", VBool(true))))))
    ensures !GiEngineOn(redshift) ==> GiConverted(o).value == o
  {
    if GiEngineOn(redshift) {
      GetPut(o, "render_settings", VDict(Put(rs, "redshift_renderer", VDict(Put(redshift, "gi_enabled", VBool(true))))), "render_settings");
    } else {
      var changed := Put(rs, "redshift_renderer", VDict(Put(redshift, "gi_enabled", VBool(true))));
      GetPut(rs, "redshift_renderer", VDict(Put(redshift, "gi_enabled", VBool(true))), "redshift_renderer");
      HasKeyPut(redshift, "gi_enabled", VBool(true), "gi_enabled");
      assert Get(changed, "redshift_renderer") != Get(rs, "redshift_renderer");
    }
  }

  /** An existing `gi_enabled`, whatever its value, is never touched. */
  lemma GiEnabledKept(o: Entries<Value>, rs: Entries<Value>, redshift: Entries<Value>)
    requires Get(o, "render_settings") == Some(VDict(rs))
    requires Get(rs, "redshift_renderer") == Some(VDict(redshift))
    requires HasKey(redshift, "gi_enabled")
    ensures GiConverted(o) == Ok(o)
  { }

  /** Without render settings, or without Redshift settings, the conversion does nothing. */
  lemma GiMissingNoOp(o: Entries<Value>, rs: Entries<Value>)
    ensures !HasKey(o, "render_settings") ==> GiConverted(o) == Ok(o)
    ensures Get(o, "render_settings") == Some(VDict(rs)) && !HasKey(rs, "redshift_renderer") ==> GiConverted(o) == Ok(o)
  { }

  /** Deriving `gi_enabled` twice is deriving it once. */
  lemma GiIdempotent(o: Entries<Value>)
    requires GiConverted(o).Ok?
    ensures GiConverted(GiConverted(o).value) == GiConverted(o)
  {
    var rs := GetOr(o, "render_settings", VNone);
    if rs.VDict? {
      var redshift := GetOr(rs.entries, "redshift_renderer", VNone);
      if redshift.VDict? && !HasKey(redshift.entries, "gi_enabled") && GiEngineOn(redshift.entries) {
        var newRedshift := Put(redshift.entries, "gi_enabled", VBool(true));
        var newRs := Put(rs.entries, "redshift_renderer", VDict(newRedshift));
        GetPut(o, "render_settings", VDict(newRs), "render_settings");
        GetPut(rs.entries, "redshift_renderer", VDict(newRedshift), "redshift_renderer");
        HasKeyPut(redshift.entries, "gi_enabled", VBool(true), "gi_enabled");
      }
    }
  }

  lemma DirmapKeepsRenderSettings(o: Entries<Value>)
    ensures Get(DirmapConverted(o), "render_settings") == Get(o, "render_settings")
  {
    if HasKey(o, LegacyDirmap) && !HasKey(o, Dirmap) {
      GetPut(Remove(o, LegacyDirmap), Dirmap, Get(o, LegacyDirmap).value, "render_settings");
    }
  }

  lemma GiKeepsDirmapKeys(o: Entries<Value>)
    requires GiConverted(o).Ok?
    ensures HasKey(GiConverted(o).value, LegacyDirmap) <==> HasKey(o, LegacyDirmap)
    ensures HasKey(GiConverted(o).value, Dirmap) <==> HasKey(o, Dirmap)
    ensures Get(GiConverted(o).value, LegacyDirmap) == Get(o, LegacyDirmap)
  {
    var rs := GetOr(o, "render_settings", VNone);
    if GiConverted(o).value != o {
      var v := GiConverted(o).value;
      assert v == Put(o, "render_settings", Get(v, "render_settings").value) by {
        var redshift := GetOr(rs.entries, "redshift_renderer", VNone);
        var newRs := VDict(Put(rs.entries, "redshift_renderer", VDict(Put(redshift.entries, "gi_enabled", VBool(true)))));
        GetPut(o, "render_settings", newRs, "render_settings");
      }
      var x := Get(v, "render_settings").value;
      HasKeyPut(o, "render_settings", x, LegacyDirmap);
      HasKeyPut(o, "render_settings", x, Dirmap);
      GetPut(o, "render_settings", x, LegacyDirmap);
    }
  }

  /**
   * Converting already converted overrides changes nothing more, so the
   * conversion can run on every load of the settings.
   */
  lemma ConvertIdempotent(o: Entries<Value>)
    requires Converted(o).Ok?
    ensures Converted(Converted(o).value) == Converted(o)
  {
    var d := DirmapConverted(o);
    var g := GiConverted(d).value;
    GiKeepsDirmapKeys(d);
    DirmapIdempotent(o);
    assert DirmapConverted(g) == g;
    GiIdempotent(d);
  }
}
