/** The `.env` reader of convert_env_to_yaml.py (lines 7-16): every line is
    stripped, blank lines and `#` comments are skipped, lines without `=` are
    ignored, and the rest are split on their first `=` into a stripped key and
    a stripped value, a later line overwriting an earlier one with the same key.
    Reading the file and writing the YAML are not modelled: the file is given
    as its sequence of lines, or as absent. */
module EnvToYaml {
  import opened Wrappers
  import opened Text

  datatype Entry = Entry(key: string, value: string)

  /** What one line contributes to `env_vars`, if anything. */
  function ParseLine(line: string): (r: Option<Entry>)
    ensures r.Some? ==> Trimmed(r.value.key) && Trimmed(r.value.value)
  {
    var t := Strip(line);
    if t == [] || t[0] == '#' then None
    else if '=' !in t then None
    else
      var i := IndexOf(t, '=');
      Some(Entry(Strip(t[..i]), Strip(t[i + 1..])))
  }

  /** A line is skipped exactly when it is blank or a comment after stripping, or has no
      `=`; otherwise the key is the stripped text before the first `=`, which therefore
      holds no `=`, and the value the stripped text after it. */
  lemma ParseLineSpec(line: string)
    ensures ParseLine(line).Some? <==>
              (var t := Strip(line); t != [] && t[0] != '#' && '=' in t)
    ensures ParseLine(line).Some? ==>
              var t := Strip(line);
              exists i :: && 0 <= i < |t| && t[i] == '=' && '=' !in t[..i]
                          && ParseLine(line).value == Entry(Strip(t[..i]), Strip(t[i + 1..]))
    ensures ParseLine(line).Some? ==> '=' !in ParseLine(line).value.key
  {
    var t := Strip(line);
    if t != [] && t[0] != '#' && '=' in t {
      var i := IndexOf(t, '=');
      StripKeepsOut(t[..i], '=');
    }
  }

  /** A line that is already stripped, not a comment and holds `=` parses without further stripping of the whole. */
  lemma ParseStripped(line: string)
    requires Trimmed(line) && line != [] && line[0] != '#' && '=' in line
    ensures ParseLine(line)
              == Some(Entry(Strip(line[..IndexOf(line, '=')]), Strip(line[IndexOf(line, '=') + 1..])))
  {
    StripTrimmed(line);
  }

  /** Writing `key=value` and reading it back gives the same entry, for any trimmed key
      without `=` that does not start a comment; the value may contain `=` and the
      key may be empty. */
  lemma ParseLineRoundTrip(key: string, value: string)
    requires Trimmed(key) && Trimmed(value)
    requires '=' !in key
    requires key == [] || key[0] != '#'
    ensures ParseLine(key + "=" + value) == Some(Entry(key, value))
  {
    var line := key + "=" + value;
    assert line[0] == (if key == [] then '=' else key[0]);
    assert line[|line| - 1] == (if value == [] then '=' else value[|value| - 1]);
    assert line[..|key|] == key;
    assert line[|key| + 1..] == value;
    IndexOfFirst(line, '=', |key|);
    ParseStripped(line);
    StripTrimmed(key);
    StripTrimmed(value);
  }

  /** One line's effect on `env_vars`. */
  function Apply(env: map<string, string>, parsed: Option<Entry>): map<string, string>
  {
    match parsed
    case None => env
    case Some(e) => env[e.key := e.value]
  }

  /** The map after applying the parsed lines in order. */
  function Fold(parsed: seq<Option<Entry>>): map<string, string>
  {
    if parsed == [] then map[]
    else Apply(Fold(parsed[..|parsed| - 1]), parsed[|parsed| - 1])
  }

  function Parsed(lines: seq<string>): (r: seq<Option<Entry>>)
    ensures |r| == |lines| && forall i :: 0 <= i < |lines| ==> r[i] == ParseLine(lines[i])
  {
    seq(|lines|, i requires 0 <= i < |lines| => ParseLine(lines[i]))
  }

  /** `env_vars` after the given lines. */
  function EnvOf(lines: seq<string>): map<string, string>
  {
    if lines == [] then map[]
    else Apply(EnvOf(lines[..|lines| - 1]), ParseLine(lines[|lines| - 1]))
  }

  /** Reading lines is folding their parsed entries. */
  lemma {:induction false} EnvIsFold(lines: seq<string>)
    ensures EnvOf(lines) == Fold(Parsed(lines))
  {
    if lines != [] {
      var n := |lines| - 1;
      EnvIsFold(lines[..n]);
      assert Parsed(lines)[..n] == Parsed(lines[..n]);
    }
  }

  /** Reading one more line applies that line's entry to the map built so far. */
  lemma EnvStep(lines: seq<string>, line: string)
    ensures EnvOf(lines + [line]) == Apply(EnvOf(lines), ParseLine(line))
  {
    assert (lines + [line])[..|lines|] == lines;
  }

  /** A line that parses to nothing (blank, comment, or without `=`) leaves the map as it
      was; a line that parses to an entry sets that key, overwriting an earlier value,
      and leaves every other key alone. */
  lemma ApplyEntry(env: map<string, string>, parsed: Option<Entry>)
    ensures parsed.None? ==> Apply(env, parsed) == env
    ensures parsed.Some? ==>
              && Apply(env, parsed).Keys == env.Keys + {parsed.value.key}
              && Apply(env, parsed)[parsed.value.key] == parsed.value.value
              && forall k :: k in env && k != parsed.value.key ==> Apply(env, parsed)[k] == env[k]
  {
  }

  predicate HasKey(parsed: Option<Entry>, k: string)
  {
    parsed.Some? && parsed.value.key == k
  }

  /** No entry after position `i` has key `k`. */
  predicate NoneLater(parsed: seq<Option<Entry>>, k: string, i: nat)
  {
    forall j :: i < j < |parsed| ==> !HasKey(parsed[j], k)
  }

  /** In a fold, a key is present exactly when some entry has it. */
  lemma {:induction false} FoldKeys(parsed: seq<Option<Entry>>, k: string)
    ensures k in Fold(parsed) <==> exists i :: 0 <= i < |parsed| && HasKey(parsed[i], k)
  {
    if parsed != [] {
      var n := |parsed| - 1;
      var before, last := parsed[..n], parsed[n];
      FoldKeys(before, k);
      ApplyEntry(Fold(before), last);
      if !HasKey(last, k) && exists i :: 0 <= i < |parsed| && HasKey(parsed[i], k) {
        var i :| 0 <= i < |parsed| && HasKey(parsed[i], k);
        assert before[i] == parsed[i];
      }
      if exists i :: 0 <= i < n && HasKey(before[i], k) {
        var i :| 0 <= i < n && HasKey(before[i], k);
        assert parsed[i] == before[i];
      }
    }
  }

  /** In a fold, a present key holds the value of the last entry with that key. */
  lemma {:induction false} FoldLastWins(parsed: seq<Option<Entry>>, k: string)
    requires k in Fold(parsed)
    ensures exists i :: 0 <= i < |parsed| && parsed[i] == Some(Entry(k, Fold(parsed)[k]))
                        && NoneLater(parsed, k, i)
  {
    var n := |parsed| - 1;
    var before, last := parsed[..n], parsed[n];
    ApplyEntry(Fold(before), last);
    if HasKey(last, k) {
      assert parsed[n] == Some(Entry(k, Fold(parsed)[k]));
      assert NoneLater(parsed, k, n);
    } else {
      FoldLastWins(before, k);
      var i :| 0 <= i < n && before[i] == Some(Entry(k, Fold(before)[k])) && NoneLater(before, k, i);
      assert parsed[i] == Some(Entry(k, Fold(parsed)[k]));
      assert NoneLater(parsed, k, i);
    }
  }

  /** A key is in the map exactly when some line parses to an entry with that key. */
  lemma EnvHasKey(lines: seq<string>, k: string)
    ensures k in EnvOf(lines) <==> exists i :: 0 <= i < |lines| && HasKey(ParseLine(lines[i]), k)
  {
    var parsed := Parsed(lines);
    EnvIsFold(lines);
    FoldKeys(parsed, k);
    assert (exists i :: 0 <= i < |lines| && HasKey(ParseLine(lines[i]), k))
           == (exists i :: 0 <= i < |parsed| && HasKey(parsed[i], k));
  }

  /** The value stored for a key is the one on the last line that parses to that key:
      the last occurrence wins. */
  lemma EnvLastWins(lines: seq<string>, k: string)
    requires k in EnvOf(lines)
    ensures exists i :: && 0 <= i < |lines|
                        && ParseLine(lines[i]) == Some(Entry(k, EnvOf(lines)[k]))
                        && forall j :: i < j < |lines| ==> !HasKey(ParseLine(lines[j]), k)
  {
    var parsed := Parsed(lines);
    EnvIsFold(lines);
    FoldLastWins(parsed, k);
    var i :| 0 <= i < |parsed| && parsed[i] == Some(Entry(k, Fold(parsed)[k])) && NoneLater(parsed, k, i);
    forall j | i < j < |lines|
      ensures !HasKey(ParseLine(lines[j]), k)
    {
      assert parsed[j] == ParseLine(lines[j]);
    }
    assert parsed[i] == ParseLine(lines[i]);
  }

  lemma NextLine(lines: seq<string>, n: nat)
    requires n < |lines|
    ensures EnvOf(lines[..n + 1]) == Apply(EnvOf(lines[..n]), ParseLine(lines[n]))
  {
    assert lines[..n + 1] == lines[..n] + [lines[n]];
    EnvStep(lines[..n], lines[n]);
  }

  /** The script's loop: `file` is the content of `.env` split into lines, or `None`
      when `os.path.exists(".env")` is false. */
  method ConvertEnv(file: Option<seq<string>>) returns (envVars: map<string, string>)
    ensures file.None? ==> envVars == map[]
    ensures file.Some? ==> envVars == EnvOf(file.value)
  {
    envVars := map[];
    if file.None? {
      return;
    }
    var lines := file.value;
    for n := 0 to |lines|
      invariant envVars == EnvOf(lines[..n])
    {
      var line := Strip(lines[n]);
      if line == [] || line[0] == '#' {
        assert envVars == EnvOf(lines[..n + 1]) by {
          NextLine(lines, n);
          assert ParseLine(lines[n]).None?;
        }
        continue;
      }
      if '=' in line {
        var eq := IndexOf(line, '=');
        assert envVars[Strip(line[..eq]) := Strip(line[eq + 1..])] == EnvOf(lines[..n + 1]) by {
          NextLine(lines, n);
          assert ParseLine(lines[n]) == Some(Entry(Strip(line[..eq]), Strip(line[eq + 1..])));
        }
        envVars := envVars[Strip(line[..eq]) := Strip(line[eq + 1..])];
      } else {
        assert envVars == EnvOf(lines[..n + 1]) by {
          NextLine(lines, n);
          assert ParseLine(lines[n]).None?;
        }
      }
    }
    assert lines[..|lines|] == lines;
  }
}
