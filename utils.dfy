/**
 * The browser client's helpers (client/src/utils.js): reading one cookie out
 * of `document.cookie`, building the string a cookie is set with, and the
 * random player id.  The cookie jar, the expiry date and the random draws are
 * inputs here.
 */
module Utils {
  import opened Common
  import opened Text

  // ---------------------------------------------------------------------------
  // getCookie

  /** The text `getCookie(name)` splits on: `"; " + name + "="`. */
  function Marker(name: string): (m: string)
    ensures |m| == |name| + 3 && m[0] == ';'
  {
    "; " + name + "="
  }

  /** A string without `;` never contains a separator that starts with `;`. */
  lemma FreeOfSemicolon(s: string, sep: string)
    requires |sep| > 0 && sep[0] == ';' && ';' !in s
    ensures Free(s, sep)
  {
    NoOccurrenceInside(s, "", sep);
    assert s + "" == s;
  }

  /**
   * The first part of a split is a prefix of the string that holds no `;` and
   * stops at the first `;` or at the end.
   */
  lemma FirstPart(s: string)
    ensures var r := Split(s, ";")[0]; ';' !in r && r <= s && (|r| == |s| || s[|r|] == ';')
  {
    var parts := Split(s, ";");
    if ';' in parts[0] {
      var p :| 0 <= p < |parts[0]| && parts[0][p] == ';';
      assert OccursAt(parts[0], ";", p);
    }
    JoinStartsWithFirst(parts, ";");
  }

  /** A join starts with its first part, followed by the separator when more parts come. */
  lemma JoinStartsWithFirst(parts: seq<string>, sep: string)
    requires |parts| >= 1
    ensures parts[0] <= Join(parts, sep)
    ensures |parts| == 1 ==> Join(parts, sep) == parts[0]
    ensures |parts| > 1 ==> parts[0] + sep <= Join(parts, sep)
  {
    if |parts| > 1 {
      assert Join(parts, sep) == parts[0] + sep + Join(parts[1..], sep);
    }
  }

  /** `s.split(';').shift()`: the text before the first `;`, or all of `s`. */
  function FirstField(s: string): (r: string)
    ensures ';' !in r && r <= s
    ensures |r| == |s| || s[|r|] == ';'
  {
    FirstPart(s);
    Split(s, ";")[0]
  }

  /** Splitting on the marker gives two parts exactly when it occurs and nothing follows its first occurrence. */
  lemma TwoParts(v: string, m: string)
    requires |m| > 0
    ensures |Split(v, m)| == 2 <==> IndexOf(v, m).Some? && Free(v[IndexOf(v, m).value + |m|..], m)
    ensures |Split(v, m)| == 2 ==> Split(v, m)[1] == v[IndexOf(v, m).value + |m|..]
  {
    match IndexOf(v, m)
    case None =>
    case Some(i) =>
      var rest := v[i + |m|..];
      assert Split(v, m) == [v[..i]] + Split(rest, m);
      if Free(rest, m) {
        SplitFree(rest, m);
      }
  }

  /**
   * `getCookie(name)` on the jar `cookie`: split `"; " + cookie` on
   * `"; " + name + "="`, and only when that gives exactly two parts, return
   * the second one up to its first `;`.  Otherwise the result is `undefined`.
   */
  function GetCookie(name: string, cookie: string): (r: Option<string>)
    ensures var v := "; " + cookie; var m := Marker(name);
      r.Some? <==> IndexOf(v, m).Some? && Free(v[IndexOf(v, m).value + |m|..], m)
    ensures var v := "; " + cookie; var m := Marker(name);
      r.Some? ==> IndexOf(v, m).Some? && r.value == FirstField(v[IndexOf(v, m).value + |m|..])
    ensures r.Some? ==> ';' !in r.value
  {
    var parts := Split("; " + cookie, Marker(name));
    TwoParts("; " + cookie, Marker(name));
    if |parts| == 2 then Some(FirstField(parts[1])) else None
  }

  /** One `name=value` pair of the jar. */
  datatype Pair = Pair(name: string, value: string)

  /** A pair as a browser stores it: no `;` anywhere, no `=` in the name. */
  predicate WellFormedPair(c: Pair) {
    ';' !in c.name && '=' !in c.name && ';' !in c.value
  }

  function Entry(c: Pair): string {
    c.name + "=" + c.value
  }

  function Entries(jar: seq<Pair>): (r: seq<string>)
    ensures |r| == |jar|
    decreases |jar|
  {
    if jar == [] then [] else [Entry(jar[0])] + Entries(jar[1..])
  }

  /** `document.cookie` for a jar: the pairs as `name=value`, joined by `"; "`. */
  function DocumentCookie(jar: seq<Pair>): string {
    Join(Entries(jar), "; ")
  }

  /**
   * Each pair with `"; "` in front of it, which is `"; " + document.cookie`
   * for a non-empty jar.  Written with the marker of each pair's name.
   */
  function Prefixed(jar: seq<Pair>): string
    decreases |jar|
  {
    if jar == [] then "" else Marker(jar[0].name) + (jar[0].value + Prefixed(jar[1..]))
  }

  lemma Assoc(x: string, y: string, z: string)
    ensures x + (y + z) == x + y + z
  {
  }

  /** Re-bracketing a concatenation of four strings. */
  lemma Regroup(x: string, y: string, z: string, w: string)
    ensures x + (y + (z + w)) == (x + (y + z)) + w
  {
  }

  /** One entry with the separator in front is the marker of its name followed by its value. */
  lemma EntryMarker(c: Pair)
    ensures "; " + Entry(c) == Marker(c.name) + c.value
  {
  }

  /** `document.cookie` of two or more pairs: the first entry, the separator, the rest. */
  lemma DocumentCookieCons(jar: seq<Pair>)
    requires |jar| >= 2
    ensures DocumentCookie(jar) == Entry(jar[0]) + ("; " + DocumentCookie(jar[1..]))
  {
    var es := Entries(jar);
    assert es[0] == Entry(jar[0]) && es[1..] == Entries(jar[1..]);
    Assoc(es[0], "; ", Join(es[1..], "; "));
  }

  lemma {:induction false} PrefixedIsSeparated(jar: seq<Pair>)
    requires jar != []
    ensures "; " + DocumentCookie(jar) == Prefixed(jar)
    decreases |jar|
  {
    var c := jar[0];
    EntryMarker(c);
    if |jar| == 1 {
      assert Entries(jar) == [Entry(c)];
      assert c.value + Prefixed(jar[1..]) == c.value;
    } else {
      var rest := jar[1..];
      calc {
        "; " + DocumentCookie(jar);
        { DocumentCookieCons(jar); }
        "; " + (Entry(c) + ("; " + DocumentCookie(rest)));
        { PrefixedIsSeparated(rest); }
        "; " + (Entry(c) + Prefixed(rest));
        { Assoc("; ", Entry(c), Prefixed(rest)); }
        "; " + Entry(c) + Prefixed(rest);
        Marker(c.name) + c.value + Prefixed(rest);
        { Assoc(Marker(c.name), c.value, Prefixed(rest)); }
        Marker(c.name) + (c.value + Prefixed(rest));
      }
    }
  }

  /** No pair but one named `k` can hold the marker of `k` at its start. */
  lemma OtherNameNoMarker(c: Pair, b: string, k: string)
    requires WellFormedPair(c) && c.name != k && '=' !in k
    ensures forall p :: 0 <= p < |Marker(c.name)| + |c.value| ==>
      !OccursAt(Marker(c.name) + (c.value + b), Marker(k), p)
  {
    var mc := Marker(c.name);
    var m := Marker(k);
    var s := mc + (c.value + b);
    forall p | 0 <= p < |mc| + |c.value| ensures !OccursAt(s, m, p) {
      if p == 0 {
        var n := |c.name|;
        if n < |k| {
          assert s[2 + n] == mc[2 + n] == '=' != k[n] == m[2 + n];
        } else if n > |k| {
          assert s[2 + |k|] == mc[2 + |k|] == c.name[|k|] != '=' == m[2 + |k|];
        } else if |m| <= |s| {
          assert s[2..2 + n] == mc[2..2 + n] == c.name != k == m[2..2 + n];
        }
      } else {
        assert s[p] != ';' by {
          if p < |mc| {
            assert mc[1..] == " " + c.name + "=";
            assert s[p] == mc[1..][p - 1];
          } else {
            assert s[p] == c.value[p - |mc|];
          }
        }
      }
    }
  }

  /** `Prefixed` distributes over concatenation of jars. */
  lemma {:induction false} PrefixedAppend(a: seq<Pair>, b: seq<Pair>)
    ensures Prefixed(a + b) == Prefixed(a) + Prefixed(b)
    decreases |a|
  {
    if a == [] {
      assert a + b == b;
    } else {
      var c := a[0];
      PrefixedAppend(a[1..], b);
      assert (a + b)[0] == c && (a + b)[1..] == a[1..] + b;
      calc {
        Prefixed(a + b);
        Marker(c.name) + (c.value + Prefixed(a[1..] + b));
        Marker(c.name) + (c.value + (Prefixed(a[1..]) + Prefixed(b)));
        { Regroup(Marker(c.name), c.value, Prefixed(a[1..]), Prefixed(b)); }
        Prefixed(a) + Prefixed(b);
      }
    }
  }

  /** No occurrence of the marker of `k` starts inside pairs not named `k`, whatever follows them. */
  lemma {:induction false} NoMarkerInside(jar: seq<Pair>, k: string, b: string)
    requires forall i :: 0 <= i < |jar| ==> WellFormedPair(jar[i]) && jar[i].name != k
    requires '=' !in k
    ensures forall p :: 0 <= p < |Prefixed(jar)| ==> !OccursAt(Prefixed(jar) + b, Marker(k), p)
    decreases |jar|
  {
    if jar != [] {
      var m := Marker(k);
      var c := jar[0];
      var rest := Prefixed(jar[1..]);
      var e := Marker(c.name) + c.value;
      NoMarkerInside(jar[1..], k, b);
      OtherNameNoMarker(c, rest + b, k);
      assert Prefixed(jar) + b == Marker(c.name) + (c.value + (rest + b)) == e + (rest + b);
      OccursInSuffix(e, rest + b, m);
      forall p | |e| <= p < |Prefixed(jar)| ensures !OccursAt(Prefixed(jar) + b, m, p) {
        assert !OccursAt(rest + b, m, p - |e|);
      }
    }
  }

  /** A jar with no pair named `k` does not contain the marker of `k`. */
  lemma NoMarkerWithout(jar: seq<Pair>, k: string)
    requires forall i :: 0 <= i < |jar| ==> WellFormedPair(jar[i]) && jar[i].name != k
    requires '=' !in k
    ensures Free(Prefixed(jar), Marker(k))
  {
    NoMarkerInside(jar, k, "");
    assert Prefixed(jar) + "" == Prefixed(jar);
  }

  /** The jar cut at pair `j`: the pairs before it, its marker, its value, the pairs after it. */
  lemma CutAtPair(jar: seq<Pair>, j: nat)
    requires j < |jar|
    ensures Prefixed(jar)
         == Prefixed(jar[..j]) + (Marker(jar[j].name) + (jar[j].value + Prefixed(jar[j + 1..])))
  {
    var before, at := jar[..j], jar[j..];
    assert jar == before + at;
    PrefixedAppend(before, at);
    assert at[0] == jar[j] && at[1..] == jar[j + 1..];
  }

  /**
   * In a jar where exactly the pair at `j` is named `k`, the marker of `k`
   * first occurs where that pair starts, and the value follows it.
   */
  lemma MarkerAtPair(jar: seq<Pair>, j: nat)
    requires j < |jar| && forall i :: 0 <= i < |jar| ==> WellFormedPair(jar[i])
    requires forall i :: 0 <= i < |jar| && i != j ==> jar[i].name != jar[j].name
    ensures IndexOf(Prefixed(jar), Marker(jar[j].name)) == Some(|Prefixed(jar[..j])|)
    ensures Prefixed(jar)[|Prefixed(jar[..j])| + |Marker(jar[j].name)|..]
         == jar[j].value + Prefixed(jar[j + 1..])
  {
    var k := jar[j].name;
    var m := Marker(k);
    var before := jar[..j];
    var a, b := Prefixed(before), m + (jar[j].value + Prefixed(jar[j + 1..]));
    CutAtPair(jar, j);
    assert forall i :: 0 <= i < |before| ==> WellFormedPair(before[i]) && before[i].name != k by {
      forall i | 0 <= i < |before| ensures WellFormedPair(before[i]) && before[i].name != k {
        assert before[i] == jar[i];
      }
    }
    NoMarkerInside(before, k, b);
    assert OccursAt(a + b, m, |a|) by {
      OccursInSuffix(a, b, m);
      assert OccursAt(b, m, 0);
    }
    IndexOfAt(a + b, m, |a|);
    assert (a + b)[|a| + |m|..] == b[|m|..];
  }

  /**
   * Round trip: in a jar of well-formed pairs with distinct names,
   * `getCookie(k)` returns the value stored under `k`.
   */
  lemma GetCookieFindsPair(jar: seq<Pair>, j: nat)
    requires j < |jar| && forall i :: 0 <= i < |jar| ==> WellFormedPair(jar[i])
    requires forall i :: 0 <= i < |jar| && i != j ==> jar[i].name != jar[j].name
    ensures GetCookie(jar[j].name, DocumentCookie(jar)) == Some(jar[j].value)
  {
    var k := jar[j].name;
    var m := Marker(k);
    var value := jar[j].value;
    var after := jar[j + 1..];
    PrefixedIsSeparated(jar);
    MarkerAtPair(jar, j);
    forall i | 0 <= i < |after| ensures WellFormedPair(after[i]) && after[i].name != k {
      assert after[i] == jar[j + 1 + i];
    }
    NoMarkerWithout(after, k);
    NoOccurrenceInside(value, Prefixed(after), m);
    FreeSkip(value, Prefixed(after), m);
    FieldBeforeJar(value, after);
  }

  /** The value of a pair, followed by the rest of the jar, is cut off whole at the next `;`. */
  lemma FieldBeforeJar(value: string, after: seq<Pair>)
    requires ';' !in value
    ensures FirstField(value + Prefixed(after)) == value
  {
    if after == [] {
      assert value + Prefixed(after) == value;
      FreeOfSemicolon(value, ";");
      SplitFree(value, ";");
    } else {
      var m := Marker(after[0].name);
      var rest := after[0].value + Prefixed(after[1..]);
      var tail := m[1..] + rest;
      assert m == ";" + m[1..];
      calc {
        value + Prefixed(after);
        value + (m + rest);
        { Assoc(";", m[1..], rest); }
        value + (";" + tail);
        { Assoc(value, ";", tail); }
        value + ";" + tail;
      }
      SplitFirst(value, tail, ";");
    }
  }

  /** A jar without a pair named `k` gives `undefined` for `k`. */
  lemma GetCookieMissing(jar: seq<Pair>, k: string)
    requires forall i :: 0 <= i < |jar| ==> WellFormedPair(jar[i]) && jar[i].name != k
    requires '=' !in k
    ensures GetCookie(k, DocumentCookie(jar)) == None
  {
    NoMarkerWithout(jar, k);
    if jar == [] {
      assert !OccursAt("; ", Marker(k), 0);
    } else {
      PrefixedIsSeparated(jar);
    }
  }

  /**
   * A cookie whose name merely ends in the name looked for is not matched,
   * because the marker starts with `"; "`.
   */
  lemma SuffixNameNotMatched()
    ensures GetCookie("playerId", "xplayerId=abc") == None
  {
    var jar := [Pair("xplayerId", "abc")];
    assert DocumentCookie(jar) == "xplayerId=abc";
    GetCookieMissing(jar, "playerId");
  }

  // ---------------------------------------------------------------------------
  // setCookie

  /** The default of `setCookie`'s `sameSite` parameter. */
  const DefaultSameSite: string := "Lax"

  /**
   * The string `setCookie(name, value, days, secure, sameSite)` assigns to
   * `document.cookie`.  `value` is `None` for a falsy value other than `""`;
   * `days` is truthy when it is not zero; `expiresAt` is the
   * `toUTCString()` of the expiry date, which is computed from the clock.
   */
  function SetCookie(name: string, value: Option<string>, days: int, expiresAt: string,
                     secure: bool, sameSite: string): (c: string)
    ensures name + "=" <= c
  {
    var expires := if days != 0 then "; expires=" + expiresAt else "";
    name + "=" + (if value.Some? then value.value else "") + expires + "; path=/"
      + (if secure then "; Secure" else "") + "; SameSite=" + sameSite
  }

  /** The attributes of a `setCookie` string, in order, without their `"; "` separators. */
  function CookieAttributes(name: string, value: Option<string>, days: int, expiresAt: string,
                            secure: bool, sameSite: string): seq<string>
  {
    [name + "=" + (if value.Some? then value.value else "")]
      + ((if days != 0 then ["expires=" + expiresAt] else [])
      + (["path=/"]
      + ((if secure then ["Secure"] else [])
      + ["SameSite=" + sameSite])))
  }

  lemma JoinCons(a: string, rest: seq<string>, sep: string)
    requires rest != []
    ensures Join([a] + rest, sep) == a + sep + Join(rest, sep)
  {
    assert ([a] + rest)[1..] == rest;
  }

  /** Parts free of the separator's first character are recovered by splitting their join. */
  lemma {:induction false} SplitJoin(parts: seq<string>, sep: string)
    requires |sep| > 0 && |parts| >= 1
    requires forall k :: 0 <= k < |parts| ==> sep[0] !in parts[k]
    ensures Split(Join(parts, sep), sep) == parts
    decreases |parts|
  {
    if |parts| == 1 {
      NoOccurrenceInside(parts[0], "", sep);
      assert parts[0] + "" == parts[0];
      SplitFree(parts[0], sep);
    } else {
      SplitJoin(parts[1..], sep);
      SplitFirst(parts[0], Join(parts[1..], sep), sep);
    }
  }

  /** Joins the last three attributes, with or without `Secure`. */
  lemma JoinTail(secure: bool, sameSite: string)
    ensures Join(["path=/"] + ((if secure then ["Secure"] else []) + ["SameSite=" + sameSite]), "; ")
         == "path=/" + "; " + (if secure then "Secure" + "; " else "") + "SameSite=" + sameSite
  {
    var same := ["SameSite=" + sameSite];
    if secure {
      JoinCons("Secure", same, "; ");
      JoinCons("path=/", ["Secure"] + same, "; ");
    } else {
      assert [] + same == same;
      JoinCons("path=/", same, "; ");
    }
  }

  lemma RegroupExpiresSecure(first: string, expiresAt: string, days: int, secure: bool, sameSite: string)
    requires days != 0 && secure
    ensures first + "; " + ((if days != 0 then "expires=" + expiresAt + "; " else "")
              + ("path=/" + "; " + (if secure then "Secure" + "; " else "") + "SameSite=" + sameSite))
         == first + (if days != 0 then "; expires=" + expiresAt else "") + "; path=/"
              + (if secure then "; Secure" else "") + "; SameSite=" + sameSite
  {
    assert first + "; " + ("expires=" + expiresAt + "; " + ("path=/" + "; " + ("Secure" + "; ") + "SameSite=" + sameSite)) == first + ("; expires=" + expiresAt) + "; path=/" + "; Secure" + "; SameSite=" + sameSite;
  }

  lemma RegroupExpires(first: string, expiresAt: string, days: int, secure: bool, sameSite: string)
    requires days != 0 && !secure
    ensures first + "; " + ((if days != 0 then "expires=" + expiresAt + "; " else "")
              + ("path=/" + "; " + (if secure then "Secure" + "; " else "") + "SameSite=" + sameSite))
         == first + (if days != 0 then "; expires=" + expiresAt else "") + "; path=/"
              + (if secure then "; Secure" else "") + "; SameSite=" + sameSite
  {
    assert first + "; " + ("expires=" + expiresAt + "; " + ("path=/" + "; " + "" + "SameSite=" + sameSite)) == first + ("; expires=" + expiresAt) + "; path=/" + "" + "; SameSite=" + sameSite;
  }

  lemma RegroupSecure(first: string, expiresAt: string, days: int, secure: bool, sameSite: string)
    requires days == 0 && secure
    ensures first + "; " + ((if days != 0 then "expires=" + expiresAt + "; " else "")
              + ("path=/" + "; " + (if secure then "Secure" + "; " else "") + "SameSite=" + sameSite))
         == first + (if days != 0 then "; expires=" + expiresAt else "") + "; path=/"
              + (if secure then "; Secure" else "") + "; SameSite=" + sameSite
  {
    assert first + "; " + ("" + ("path=/" + "; " + ("Secure" + "; ") + "SameSite=" + sameSite)) == first + "" + "; path=/" + "; Secure" + "; SameSite=" + sameSite;
  }

  lemma RegroupPlain(first: string, expiresAt: string, days: int, secure: bool, sameSite: string)
    requires days == 0 && !secure
    ensures first + "; " + ((if days != 0 then "expires=" + expiresAt + "; " else "")
              + ("path=/" + "; " + (if secure then "Secure" + "; " else "") + "SameSite=" + sameSite))
         == first + (if days != 0 then "; expires=" + expiresAt else "") + "; path=/"
              + (if secure then "; Secure" else "") + "; SameSite=" + sameSite
  {
    assert first + "; " + ("" + ("path=/" + "; " + "" + "SameSite=" + sameSite)) == first + "" + "; path=/" + "" + "; SameSite=" + sameSite;
  }

  /** The concatenations of `setCookie`, regrouped around the `"; "` separators. */
  lemma Regroup4(first: string, expiresAt: string, days: int, secure: bool, sameSite: string)
    ensures first + "; " + ((if days != 0 then "expires=" + expiresAt + "; " else "")
              + ("path=/" + "; " + (if secure then "Secure" + "; " else "") + "SameSite=" + sameSite))
         == first + (if days != 0 then "; expires=" + expiresAt else "") + "; path=/"
              + (if secure then "; Secure" else "") + "; SameSite=" + sameSite
  {
    if days != 0 && secure {
      RegroupExpiresSecure(first, expiresAt, days, secure, sameSite);
    } else if days != 0 {
      RegroupExpires(first, expiresAt, days, secure, sameSite);
    } else if secure {
      RegroupSecure(first, expiresAt, days, secure, sameSite);
    } else {
      RegroupPlain(first, expiresAt, days, secure, sameSite);
    }
  }

  /** The attributes joined by `"; "` are the string `setCookie` builds. */
  lemma JoinAttributes(name: string, value: Option<string>, days: int, expiresAt: string,
                       secure: bool, sameSite: string)
    ensures Join(CookieAttributes(name, value, days, expiresAt, secure, sameSite), "; ")
         == SetCookie(name, value, days, expiresAt, secure, sameSite)
  {
    var first := name + "=" + (if value.Some? then value.value else "");
    var path := ["path=/"] + ((if secure then ["Secure"] else []) + ["SameSite=" + sameSite]);
    var joinedPath := "path=/" + "; " + (if secure then "Secure" + "; " else "") + "SameSite=" + sameSite;
    JoinTail(secure, sameSite);
    var exp := (if days != 0 then ["expires=" + expiresAt] else []) + path;
    if days != 0 {
      JoinCons("expires=" + expiresAt, path, "; ");
      assert Join(exp, "; ") == "expires=" + expiresAt + "; " + joinedPath;
    } else {
      assert exp == path;
    }
    JoinCons(first, exp, "; ");
    Regroup4(first, expiresAt, days, secure, sameSite);
  }

  /**
   * When no component holds a `;`, splitting the string `setCookie` builds on
   * `"; "` gives back its attributes: `name=value`, `expires=…` only for
   * truthy `days`, `path=/`, `Secure` only when `secure`, and `SameSite=…`.
   */
  lemma SetCookieAttributes(name: string, value: Option<string>, days: int, expiresAt: string,
                            secure: bool, sameSite: string)
    requires ';' !in name && (value.Some? ==> ';' !in value.value)
    requires ';' !in expiresAt && ';' !in sameSite
    ensures Split(SetCookie(name, value, days, expiresAt, secure, sameSite), "; ")
         == CookieAttributes(name, value, days, expiresAt, secure, sameSite)
  {
    var parts := CookieAttributes(name, value, days, expiresAt, secure, sameSite);
    JoinAttributes(name, value, days, expiresAt, secure, sameSite);
    assert forall k :: 0 <= k < |parts| ==> ';' !in parts[k];
    SplitJoin(parts, "; ");
  }

  // ---------------------------------------------------------------------------
  // generatePlayerId

  /** One draw `Math.random() * 16 | 0`. */
  type Draw = r: int | 0 <= r < 16

  /** The template `generatePlayerId` fills. */
  const Template: string := "xxxx-xxxx-xxxx"

  const HexDigits: string := "0123456789abcdef"

  /** `v.toString(16)` for `0 <= v < 16`. */
  function HexDigit(v: int): (c: char)
    requires 0 <= v < 16
    ensures v < 10 ==> c as int == '0' as int + v
    ensures 10 <= v ==> c as int == 'a' as int + (v - 10)
  {
    HexDigits[v]
  }

  predicate IsLowerHex(c: char) {
    '0' <= c <= '9' || 'a' <= c <= 'f'
  }

  /** The digit's value: the inverse of `HexDigit`. */
  function HexValue(c: char): (v: int)
    requires IsLowerHex(c)
    ensures 0 <= v < 16 && HexDigit(v) == c
  {
    if c <= '9' then c as int - '0' as int else c as int - 'a' as int + 10
  }

  /** The replace callback: `c === 'x' ? r : (r & 0x3) | 0x8`. */
  function Callback(c: char, r: Draw): (v: int)
    ensures 0 <= v < 16
    ensures c == 'x' ==> v == r
  {
    if c == 'x' then r else (((r as bv8) & 3) | 8) as int
  }

  function CountX(t: string): nat
    decreases |t|
  {
    if t == [] then 0 else (if t[0] == 'x' then 1 else 0) + CountX(t[1..])
  }

  /**
   * `t.replace(/[x]/g, callback)` with one draw per `x`.  The pattern matches
   * only `x`, so the callback always takes its first branch.
   */
  function Replace(t: string, draws: seq<Draw>): (r: string)
    requires |draws| == CountX(t)
    ensures |r| == |t|
    ensures forall i :: 0 <= i < |t| ==> if t[i] == 'x' then IsLowerHex(r[i]) else r[i] == t[i]
    ensures HexAtX(t, r)
    decreases |t|
  {
    if t == [] then ""
    else if t[0] == 'x' then [HexDigit(Callback(t[0], draws[0]))] + Replace(t[1..], draws[1..])
    else [t[0]] + Replace(t[1..], draws)
  }

  /** `s` is `t` filled in: as long, with a lower-case hex digit wherever `t` has an `x`. */
  predicate HexAtX(t: string, s: string) {
    |s| == |t| && forall i :: 0 <= i < |t| && t[i] == 'x' ==> IsLowerHex(s[i])
  }

  /** The draws read back from a filled template: the value of each digit where `t` has an `x`. */
  function Digits(t: string, s: string): (d: seq<Draw>)
    requires HexAtX(t, s)
    decreases |t|
  {
    if t == [] then []
    else (if t[0] == 'x' then [HexValue(s[0]) as Draw] else []) + Digits(t[1..], s[1..])
  }

  /** Filling a template loses nothing: the draws can be read back in order. */
  lemma {:induction false} ReplaceDigits(t: string, draws: seq<Draw>)
    requires |draws| == CountX(t)
    ensures Digits(t, Replace(t, draws)) == draws
    decreases |t|
  {
    if t != [] {
      var r := Replace(t, draws);
      if t[0] == 'x' {
        ReplaceDigits(t[1..], draws[1..]);
        assert r[1..] == Replace(t[1..], draws[1..]);
        assert HexValue(HexDigit(draws[0])) == draws[0] by {
          var c := HexDigit(draws[0]);
          assert HexDigit(HexValue(c)) == c;
        }
      } else {
        ReplaceDigits(t[1..], draws);
        assert r[1..] == Replace(t[1..], draws);
      }
    }
  }

  lemma {:induction false} CountXAppend(a: string, b: string)
    ensures CountX(a + b) == CountX(a) + CountX(b)
    decreases |a|
  {
    if a == [] {
      assert a + b == b;
    } else {
      CountXAppend(a[1..], b);
      assert (a + b)[1..] == a[1..] + b;
    }
  }

  lemma CountXFour()
    ensures CountX("xxxx") == 4 && CountX("-") == 0
  {
    var four := "xxxx";
    assert CountX(four[3..]) == 1;
    assert CountX(four[2..]) == 2;
    assert CountX(four[1..]) == 3;
  }

  /** The template is three runs of four `x`, joined by `-`. */
  lemma TemplatePieces()
    ensures Template == "xxxx" + ("-" + ("xxxx" + ("-" + "xxxx")))
  {
  }

  lemma TemplateCount()
    ensures CountX(Template) == 12
  {
    var four := "xxxx";
    CountXFour();
    var dashFour := "-" + four;
    CountXAppend("-", four);
    var eight := four + dashFour;
    CountXAppend(four, dashFour);
    var dashEight := "-" + eight;
    CountXAppend("-", eight);
    CountXAppend(four, dashEight);
    TemplatePieces();
  }

  lemma TemplatePositions()
    ensures |Template| == 14
    ensures forall i :: 0 <= i < 14 ==> Template[i] == (if i == 4 || i == 9 then '-' else 'x')
  {
  }

  /** The template's shape: fourteen characters, `-` at 4 and 9, `x` elsewhere. */
  lemma TemplateShape()
    ensures |Template| == 14 && CountX(Template) == 12
    ensures forall i :: 0 <= i < 14 ==> Template[i] == (if i == 4 || i == 9 then '-' else 'x')
  {
    TemplateCount();
    TemplatePositions();
  }

  /**
   * `generatePlayerId()`, given the twelve draws: the template with each `x`
   * replaced by the hex digit of the next draw.
   */
  function GeneratePlayerId(draws: seq<Draw>): (id: string)
    requires |draws| == 12
    ensures |id| == |Template|
  {
    TemplateShape();
    Replace(Template, draws)
  }

  /**
   * The shape of a generated id: fourteen characters, dashes at positions 4
   * and 9, a lower-case hex digit everywhere else, and the draws read back
   * from the digits in order.
   */
  lemma GeneratedIdFormat(draws: seq<Draw>)
    requires |draws| == 12
    ensures var id := GeneratePlayerId(draws);
      && |id| == 14 && id[4] == '-' && id[9] == '-'
      && (forall i :: 0 <= i < 14 && i != 4 && i != 9 ==> IsLowerHex(id[i]))
      && Digits(Template, id) == draws
  {
    TemplateShape();
    ReplaceDigits(Template, draws);
    var id := GeneratePlayerId(draws);
    forall i | 0 <= i < 14 && i != 4 && i != 9 ensures IsLowerHex(id[i]) {
      assert Template[i] == 'x';
    }
  }

  /** A generated id holds neither `;` nor `=`, so it can sit in a cookie as it is. */
  lemma GeneratedIdIsCookieSafe(draws: seq<Draw>)
    requires |draws| == 12
    ensures ';' !in GeneratePlayerId(draws) && '=' !in GeneratePlayerId(draws)
  {
    GeneratedIdFormat(draws);
    var id := GeneratePlayerId(draws);
    forall i | 0 <= i < |id| ensures id[i] != ';' && id[i] != '=' {
      if i != 4 && i != 9 {
        assert IsLowerHex(id[i]);
      }
    }
  }
}
