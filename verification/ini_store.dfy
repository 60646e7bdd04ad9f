/** The persisted state store: the `process.ini` file, one section per module
    name, each section a map from field name to string value. */
module IniStore {
  import opened Common

  type Section = map<string, string>
  type Sections = map<string, Section>

  /** The file on disk: whether it exists, and its sections when it does. */
  datatype IniFile = IniFile(present: bool, sections: Sections)

  /** What `configparser.read` yields: a missing file reads as no sections. */
  function Loaded(f: IniFile): Sections
  {
    if f.present then f.sections else map[]
  }

  /** The three sections `initialize_ini_file` writes into a fresh file. */
  const BaselineModules: seq<string> := ["aw-server", "aw-watcher-afk", "aw-watcher-window"]

  function BaselineSections(): (r: Sections)
    ensures forall n :: n in r <==> n in BaselineModules
    ensures forall n :: n in r ==> r[n] == map["status" := "False", "pid" := "0"]
  {
    var blank := map["status" := "False", "pid" := "0"];
    map["aw-server" := blank, "aw-watcher-afk" := blank, "aw-watcher-window" := blank]
  }

  /** The file after `initialize_ini_file`: written only when it was absent. */
  function Initialized(f: IniFile): (r: IniFile)
    ensures r.present
    ensures f.present ==> r == f
    ensures !f.present ==> r.sections == BaselineSections()
  {
    if f.present then f else IniFile(true, BaselineSections())
  }

  /** `config.add_section` when missing, then `config.set(name, key, value)`. */
  function SetField(secs: Sections, name: string, key: string, value: string): (r: Sections)
    ensures name in r && key in r[name] && r[name][key] == value
    ensures forall s :: s in secs ==> s in r
    ensures forall s :: s in r && s != name ==> s in secs && r[s] == secs[s]
    ensures name in secs ==> forall k :: k in secs[name] ==> k in r[name]
    ensures forall k :: k in r[name] && k != key ==> name in secs && k in secs[name] && r[name][k] == secs[name][k]
  {
    var section := if name in secs then secs[name] else map[];
    secs[name := section[key := value]]
  }

  /** The field as `config.get` returns it, or None where it raises. */
  function GetField(secs: Sections, name: string, key: string): (r: Option<string>)
    ensures r.Some? <==> name in secs && key in secs[name]
    ensures r.Some? ==> r.value == secs[name][key]
  {
    if name in secs && key in secs[name] then Some(secs[name][key]) else None
  }

  lemma {:induction false} GetAfterSet(secs: Sections, name: string, key: string, value: string, name': string, key': string)
    ensures GetField(SetField(secs, name, key, value), name', key') ==
            if name' == name && key' == key then Some(value) else GetField(secs, name', key')
  {
    var r := SetField(secs, name, key, value);
    if name' == name && key' != key {
      if name in secs && key' in secs[name] {
        assert key' in r[name];
      }
    }
  }

  // ---------------------------------------------------------------------
  // Integer text, as written by `str(pid)` and read back by `int(...)`.

  predicate AllDigits(s: string)
  {
    forall i :: 0 <= i < |s| ==> IsDigit(s[i])
  }

  function DigitsValue(s: string): nat
    requires AllDigits(s)
  {
    if s == [] then 0 else DigitsValue(s[..|s| - 1]) * 10 + ((s[|s| - 1] as int) - ('0' as int))
  }

  /** Python's `int(s)` on text made of an optional sign and ASCII decimal
      digits, the only form `str(pid)` writes; None for any other text. */
  function ParseInt(s: string): (r: Option<int>)
    ensures r.Some? ==> |s| > 0
  {
    if |s| > 1 && (s[0] == '-' || s[0] == '+') && AllDigits(s[1..]) then
      var magnitude: int := DigitsValue(s[1..]);
      Some(if s[0] == '-' then -magnitude else magnitude)
    else if |s| > 0 && AllDigits(s) then
      Some(DigitsValue(s))
    else
      None
  }

  function FormatNat(n: nat): (r: string)
    ensures |r| > 0 && AllDigits(r)
  {
    var d := [(('0' as int) + n % 10) as char];
    if n < 10 then d else FormatNat(n / 10) + d
  }

  /** Python's `str(n)` for an integer. */
  function FormatInt(n: int): string
  {
    if n < 0 then "-" + FormatNat(-n) else FormatNat(n)
  }

  lemma {:induction false} FormatNatValue(n: nat)
    ensures DigitsValue(FormatNat(n)) == n
  {
    var s := FormatNat(n);
    if n >= 10 {
      FormatNatValue(n / 10);
      assert s[..|s| - 1] == FormatNat(n / 10);
    }
  }

  /** Reading back what was written gives the same integer. */
  lemma {:induction false} ParseFormatRoundTrip(n: int)
    ensures ParseInt(FormatInt(n)) == Some(n)
  {
    if n < 0 {
      FormatNatValue(-n);
      assert FormatInt(n)[1..] == FormatNat(-n);
    } else {
      FormatNatValue(n);
      var s := FormatNat(n);
      assert s[0] != '-' && s[0] != '+' by { assert IsDigit(s[0]); }
    }
  }

  /** The store as the single process.ini file shared by every module. */
  datatype IniError = NoSectionError(section: string) | NoOptionError(section: string, option: string)

  class ProcessIni {
    var present: bool
    var sections: Sections

    ghost function File(): IniFile
      reads this
    {
      IniFile(present, sections)
    }

    constructor (present: bool, sections: Sections)
      ensures File() == IniFile(present, sections)
    {
      this.present := present;
      this.sections := sections;
    }

    /** `initialize_ini_file`: create the baseline file only when absent. */
    method InitializeIniFile()
      modifies this
      ensures File() == Initialized(old(File()))
    {
      if !present {
        sections := BaselineSections();
        present := true;
      }
    }

    /** `read_update_ini_file`: return the current value of `key` in `section`,
        writing `newValue` in its place when one is given. A missing section or
        key raises before anything is written. */
    method ReadUpdateIniFile(section: string, key: string, newValue: Option<string>) returns (r: Result<string, IniError>)
      modifies this
      ensures var secs := Loaded(old(File()));
        && (section !in secs ==> r == Err(NoSectionError(section)))
        && (section in secs && key !in secs[section] ==> r == Err(NoOptionError(section, key)))
        && (GetField(secs, section, key).Some? ==> r == Ok(secs[section][key]))
      ensures r.Err? || newValue.None? ==> File() == old(File())
      ensures r.Ok? && newValue.Some? ==> File() == IniFile(true, SetField(Loaded(old(File())), section, key, newValue.value))
    {
      var secs := if present then sections else map[];
      if section !in secs {
        return Err(NoSectionError(section));
      }
      if key !in secs[section] {
        return Err(NoOptionError(section, key));
      }
      r := Ok(secs[section][key]);
      if newValue.Some? {
        sections := SetField(secs, section, key, newValue.value);
        present := true;
      }
    }
  }
}
