/** The browser cookie jar as src/Services/storageService.ts uses it: one
    cookie per name, `document.cookie` read back as its `"; "`-separated
    `name=value` rows, and a lookup that takes the first row starting with
    `key=` and keeps the part of it between the first and the second `=`. */
module CookieJar {
  import opened Wrappers
  import opened Strings

  datatype Cookie = Cookie(name: string, value: string)

  /** Names are unique and, as cookie names are, free of `=`. */
  predicate WellFormed(jar: seq<Cookie>)
  {
    && (forall i :: 0 <= i < |jar| ==> '=' !in jar[i].name)
    && (forall i, j :: 0 <= i < j < |jar| ==> jar[i].name != jar[j].name)
  }

  /** `document.cookie.split('; ')`. */
  function Rows(jar: seq<Cookie>): (r: seq<string>)
    ensures |r| == |jar|
    ensures forall i :: 0 <= i < |jar| ==> r[i] == jar[i].name + "=" + jar[i].value
  {
    if jar == [] then [] else [jar[0].name + "=" + jar[0].value] + Rows(jar[1..])
  }

  /** `rows.find(row => row.startsWith(prefix))`. */
  function FindRow(rows: seq<string>, prefix: string): (r: Option<string>)
    ensures r.None? <==> forall i :: 0 <= i < |rows| ==> !StartsWith(rows[i], prefix)
    ensures r.Some? ==> exists i :: 0 <= i < |rows| && rows[i] == r.value && StartsWith(rows[i], prefix)
                          && forall j :: 0 <= j < i ==> !StartsWith(rows[j], prefix)
  {
    if rows == [] then None
    else if StartsWith(rows[0], prefix) then Some(rows[0])
    else
      var r := FindRow(rows[1..], prefix);
      assert r.Some? ==> exists i :: 0 <= i < |rows[1..]| && rows[1..][i] == r.value && StartsWith(rows[1..][i], prefix)
                          && forall j :: 0 <= j < i ==> !StartsWith(rows[1..][j], prefix);
      if r.Some? then
        var i :| 0 <= i < |rows[1..]| && rows[1..][i] == r.value && StartsWith(rows[1..][i], prefix)
                 && forall j :: 0 <= j < i ==> !StartsWith(rows[1..][j], prefix);
        assert rows[i + 1] == r.value && forall j :: 0 <= j < i + 1 ==> !StartsWith(rows[j], prefix);
        r
      else r
  }

  /** The text before the first `=` (all of it when there is none). */
  function UpToEq(s: string): (r: string)
    ensures '=' !in r
    ensures '=' !in s ==> r == s
    ensures |r| <= |s| && s[..|r|] == r && (|r| == |s| || s[|r|] == '=')
  {
    if s == [] || s[0] == '=' then [] else [s[0]] + UpToEq(s[1..])
  }

  /** The text after the first `=`. */
  function AfterFirstEq(s: string): (r: string)
    requires '=' in s
    ensures |r| < |s| && s[|s| - |r| - 1] == '=' && '=' !in s[..|s| - |r| - 1]
    ensures r == s[|s| - |r|..]
  {
    if s[0] == '=' then s[1..] else AfterFirstEq(s[1..])
  }

  /** `row.split('=')[1]`: undefined when the row holds no `=`. */
  function SecondField(row: string): (r: Option<string>)
    ensures r.Some? <==> '=' in row
    ensures r.Some? ==> '=' !in r.value
    ensures r.Some? ==> exists i :: 0 <= i < |row| && row[i] == '=' && '=' !in row[..i]
                          && i + 1 + |r.value| <= |row| && row[i + 1..i + 1 + |r.value|] == r.value
                          && (i + 1 + |r.value| == |row| || row[i + 1 + |r.value|] == '=')
  {
    if '=' in row then Some(UpToEq(AfterFirstEq(row))) else None
  }

  /** The cookie lookup of `getPoseIndex` and `getPoseCookie`. */
  function CookieValue(jar: seq<Cookie>, key: string): (r: Option<string>)
    ensures r.Some? <==> exists i :: 0 <= i < |jar| && StartsWith(Rows(jar)[i], key + "=")
    ensures r.Some? ==> '=' !in r.value
  {
    FoundRowHasEq(Rows(jar), key);
    match FindRow(Rows(jar), key + "=")
    case None => None
    case Some(row) =>
      assert |Rows(jar)| == |jar|;
      SecondField(row)
  }

  /** The lookup finds a row exactly when some row starts with `key=`, and
      that row holds a `=`. */
  lemma FoundRowHasEq(rows: seq<string>, key: string)
    ensures FindRow(rows, key + "=").Some? <==> exists i :: 0 <= i < |rows| && StartsWith(rows[i], key + "=")
    ensures FindRow(rows, key + "=").Some? ==> '=' in FindRow(rows, key + "=").value
  {
    var found := FindRow(rows, key + "=");
    if found.Some? {
      var i :| 0 <= i < |rows| && rows[i] == found.value && StartsWith(rows[i], key + "=");
      assert rows[i][|key|] == (key + "=")[|key|];
    }
  }

  /** The value of the cookie with exactly that name. */
  function NamedValue(jar: seq<Cookie>, name: string): (r: Option<string>)
    ensures r.None? <==> forall i :: 0 <= i < |jar| ==> jar[i].name != name
  {
    if jar == [] then None
    else if jar[0].name == name then Some(jar[0].value)
    else NamedValue(jar[1..], name)
  }

  /** `document.cookie = name=value`: the cookie of that name gets the value
      in place, or a new cookie is added at the end. */
  function Upsert(jar: seq<Cookie>, name: string, value: string): (r: seq<Cookie>)
    ensures NamedValue(r, name) == Some(value)
    ensures forall other :: other != name ==> NamedValue(r, other) == NamedValue(jar, other)
    ensures forall i :: 0 <= i < |r| ==> r[i].name == name || r[i] in jar
  {
    if jar == [] then [Cookie(name, value)]
    else if jar[0].name == name then [Cookie(name, value)] + jar[1..]
    else [jar[0]] + Upsert(jar[1..], name, value)
  }

  /** A cookie written with an expiry in the past is removed. */
  function Remove(jar: seq<Cookie>, name: string): (r: seq<Cookie>)
    ensures NamedValue(r, name) == None
    ensures forall other :: other != name ==> NamedValue(r, other) == NamedValue(jar, other)
    ensures WellFormed(jar) ==> WellFormed(r)
    ensures forall i :: 0 <= i < |r| ==> r[i] in jar
  {
    if jar == [] then []
    else if jar[0].name == name then Remove(jar[1..], name)
    else [jar[0]] + Remove(jar[1..], name)
  }

  /** Writing under a name free of `=` keeps the jar well formed. */
  lemma {:induction false} UpsertWellFormed(jar: seq<Cookie>, name: string, value: string)
    requires WellFormed(jar) && '=' !in name
    ensures WellFormed(Upsert(jar, name, value))
    decreases |jar|
  {
    if jar != [] && jar[0].name != name {
      UpsertWellFormed(jar[1..], name, value);
      var rest := Upsert(jar[1..], name, value);
      assert forall i :: 0 <= i < |rest| ==> rest[i].name != jar[0].name;
    }
  }

  /** The name part of a row `name=value`. */
  lemma {:induction false} UpToEqOfRow(name: string, value: string)
    requires '=' !in name
    ensures UpToEq(name + "=" + value) == name
    decreases |name|
  {
    if name != [] {
      assert (name + "=" + value)[1..] == name[1..] + "=" + value;
      UpToEqOfRow(name[1..], value);
    } else {
      assert (name + "=" + value)[0] == '=';
    }
  }

  /** The text before the first `=` is decided by any prefix holding an `=`. */
  lemma {:induction false} UpToEqOfPrefix(s: string, p: string)
    requires StartsWith(s, p) && '=' in p
    ensures UpToEq(s) == UpToEq(p)
    decreases |p|
  {
    assert s[0] == p[0];
    if p[0] != '=' {
      assert StartsWith(s[1..], p[1..]) by {
        assert s[1..][..|p[1..]|] == s[..|p|][1..];
      }
      UpToEqOfPrefix(s[1..], p[1..]);
    }
  }

  /** A row `name=value` starts with `key=` exactly when the name is the
      key, as neither holds an `=`. */
  lemma RowMatchesOnlyItsName(name: string, value: string, key: string)
    requires '=' !in name && '=' !in key
    ensures StartsWith(name + "=" + value, key + "=") <==> name == key
  {
    var row := name + "=" + value;
    var prefix := key + "=";
    UpToEqOfRow(name, value);
    UpToEqOfRow(key, "");
    assert prefix == key + "=" + "";
    if StartsWith(row, prefix) {
      assert prefix[|key|] == '=';
      UpToEqOfPrefix(row, prefix);
    }
    if name == key {
      assert row[..|prefix|] == prefix;
    }
  }

  /** The text after the first `=` of `name=value` is the value. */
  lemma {:induction false} AfterFirstEqOfRow(name: string, value: string)
    requires '=' !in name
    ensures '=' in name + "=" + value && AfterFirstEq(name + "=" + value) == value
    decreases |name|
  {
    var row := name + "=" + value;
    assert row[|name|] == '=';
    if name != [] {
      assert row[1..] == name[1..] + "=" + value;
      AfterFirstEqOfRow(name[1..], value);
    }
  }

  /** In a well-formed jar the lookup finds the cookie with exactly that
      name and returns its value up to any `=`. */
  lemma {:induction false} CookieValueIsNamedValue(jar: seq<Cookie>, key: string)
    requires WellFormed(jar) && '=' !in key
    ensures CookieValue(jar, key) == if NamedValue(jar, key).Some? then Some(UpToEq(NamedValue(jar, key).value)) else None
    decreases |jar|
  {
    if jar != [] {
      var c := jar[0];
      RowMatchesOnlyItsName(c.name, c.value, key);
      assert Rows(jar)[1..] == Rows(jar[1..]);
      if c.name == key {
        AfterFirstEqOfRow(c.name, c.value);
      } else {
        CookieValueIsNamedValue(jar[1..], key);
      }
    }
  }

  /** Reading back a value free of `=` written under a key free of `=`
      gives that value; other keys read as before. */
  lemma UpsertThenLookup(jar: seq<Cookie>, key: string, value: string, other: string)
    requires WellFormed(jar) && '=' !in key && '=' !in value && '=' !in other
    ensures CookieValue(Upsert(jar, key, value), key) == Some(value)
    ensures other != key ==> CookieValue(Upsert(jar, key, value), other) == CookieValue(jar, other)
  {
    UpsertWellFormed(jar, key, value);
    CookieValueIsNamedValue(Upsert(jar, key, value), key);
    CookieValueIsNamedValue(Upsert(jar, key, value), other);
    CookieValueIsNamedValue(jar, other);
  }

  /** A removed key reads as absent; other keys read as before. */
  lemma RemoveThenLookup(jar: seq<Cookie>, key: string, other: string)
    requires WellFormed(jar) && '=' !in key && '=' !in other
    ensures CookieValue(Remove(jar, key), key) == None
    ensures other != key ==> CookieValue(Remove(jar, key), other) == CookieValue(jar, other)
  {
    CookieValueIsNamedValue(Remove(jar, key), key);
    CookieValueIsNamedValue(Remove(jar, key), other);
    CookieValueIsNamedValue(jar, other);
  }

  /** Writing and removing, together: what a later read of the same jar
      gives for the written key and for any other key. */
  lemma WriteThenLookup(jar: seq<Cookie>, key: string, value: string, other: string)
    requires WellFormed(jar) && '=' !in key && '=' !in value && '=' !in other
    ensures CookieValue(Upsert(jar, key, value), key) == Some(value)
    ensures other != key ==> CookieValue(Upsert(jar, key, value), other) == CookieValue(jar, other)
    ensures CookieValue(Remove(jar, key), key) == None
    ensures other != key ==> CookieValue(Remove(jar, key), other) == CookieValue(jar, other)
  {
    UpsertThenLookup(jar, key, value, other);
    RemoveThenLookup(jar, key, other);
  }
}
