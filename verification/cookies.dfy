/**
 * `parseCookies` (src/account.js:132-141): the `Set-Cookie` entries of a
 * response folded into a plain object from cookie name to value.
 */
module Cookies {
  import opened Optional
  import opened JsStrings

  /**
   * The parsed cookies. A name whose entry has no `=` maps to `undefined`,
   * written `None`; a name that is absent reads as `undefined` too.
   */
  type Jar = map<string, Option<string>>

  /** The one name an assignment on a plain object does not store: it sets the prototype instead. */
  const ProtoKey: string := "__proto__"

  /**
   * One entry: `entry.split(';')[0].split('=')`, element 0 as the name and
   * element 1 (if any) as the value.
   */
  function CookieOf(entry: string): (c: (string, Option<string>))
    ensures '=' !in c.0 && ';' !in c.0
    ensures c.0 <= entry
    ensures c.1.None? <==> '=' !in Before(entry, ';')
    ensures c.1.Some? ==> '=' !in c.1.value && ';' !in c.1.value
    ensures c.0 == Before(Before(entry, ';'), '=')
    ensures c.1.Some? ==> c.1.value == Before(After(Before(entry, ';'), '='), '=')
  {
    var head := Split(entry, ';')[0];
    var parts := Split(head, '=');
    assert parts[0] <= head;
    (parts[0], if |parts| > 1 then Some(parts[1]) else None)
  }

  /** `list[name] = value` on the object being built. */
  function Store(jar: Jar, c: (string, Option<string>)): (r: Jar)
    ensures c.0 != ProtoKey ==> r == jar[c.0 := c.1]
    ensures c.0 == ProtoKey ==> r == jar
    ensures forall k :: k in r <==> k in jar || (k == c.0 && c.0 != ProtoKey)
  {
    if c.0 == ProtoKey then jar else jar[c.0 := c.1]
  }

  /** The loop's stores, in order: later cookies overwrite earlier ones. */
  function StoreAll(cs: seq<(string, Option<string>)>): Jar
    decreases |cs|
  {
    if |cs| == 0 then map[]
    else Store(StoreAll(cs[..|cs| - 1]), cs[|cs| - 1])
  }

  /** The loop over the entries, in order. */
  function ParseEntries(entries: seq<string>): Jar
  {
    StoreAll(seq(|entries|, i requires 0 <= i < |entries| => CookieOf(entries[i])))
  }

  /**
   * `parseCookies(cookieSets)`: no header (`undefined`) gives the empty
   * object. The header, when present, is an array of entries.
   */
  function ParseCookies(cookieSets: Option<seq<string>>): (jar: Jar)
    ensures cookieSets.None? ==> jar == map[]
    ensures cookieSets == Some([]) ==> jar == map[]
  {
    match cookieSets
    case None => map[]
    case Some(entries) => ParseEntries(entries)
  }

  /** `cookies[key]`: a missing name reads as `undefined`. */
  function Get(jar: Jar, key: string): (v: Option<string>)
    ensures key !in jar ==> v.None?
    ensures v.Some? ==> key in jar && jar[key] == v
  {
    if key in jar then jar[key] else None
  }

  /** A cookie value as the parser produces it: without `=` or `;`. */
  predicate SafeValue(v: Option<string>)
  {
    v.Some? ==> '=' !in v.value && ';' !in v.value
  }

  /** When every stored value is safe, every value in the jar is. */
  lemma {:induction false} StoreAllValuesSafe(cs: seq<(string, Option<string>)>)
    requires forall i :: 0 <= i < |cs| ==> SafeValue(cs[i].1)
    ensures forall k :: k in StoreAll(cs) ==> SafeValue(StoreAll(cs)[k])
    decreases |cs|
  {
    if |cs| > 0 {
      var init := cs[..|cs| - 1];
      assert forall i :: 0 <= i < |init| ==> init[i] == cs[i];
      StoreAllValuesSafe(init);
    }
  }

  /** Every value in a parsed jar came out of an entry, so it holds neither `=` nor `;`. */
  lemma ParseEntriesValuesSafe(entries: seq<string>)
    ensures forall k :: k in ParseEntries(entries) ==> SafeValue(ParseEntries(entries)[k])
  {
    var cs := seq(|entries|, i requires 0 <= i < |entries| => CookieOf(entries[i]));
    assert forall i :: 0 <= i < |cs| ==> cs[i] == CookieOf(entries[i]);
    StoreAllValuesSafe(cs);
  }

  /** The name an entry is stored under. */
  function NameOf(entry: string): string
  {
    CookieOf(entry).0
  }

  /** The stored names are exactly the cookies' names, except the prototype setter. */
  lemma {:induction false} StoreAllKeys(cs: seq<(string, Option<string>)>, k: string)
    ensures k in StoreAll(cs) <==> k != ProtoKey && exists i :: 0 <= i < |cs| && cs[i].0 == k
    decreases |cs|
  {
    if |cs| > 0 {
      var n := |cs| - 1;
      var init := cs[..n];
      StoreAllKeys(init, k);
      if k in StoreAll(init) {
        var i :| 0 <= i < |init| && init[i].0 == k;
        assert cs[i].0 == k;
      }
      if k != ProtoKey && exists i :: 0 <= i < |cs| && cs[i].0 == k {
        var i :| 0 <= i < |cs| && cs[i].0 == k;
        if i < n {
          assert init[i].0 == k;
        }
      }
    }
  }

  /** Last writer wins: a name holds the value of the last cookie carrying it. */
  lemma {:induction false} StoreAllLastWins(cs: seq<(string, Option<string>)>, j: nat)
    requires j < |cs|
    requires cs[j].0 != ProtoKey
    requires forall i :: j < i < |cs| ==> cs[i].0 != cs[j].0
    ensures cs[j].0 in StoreAll(cs) && StoreAll(cs)[cs[j].0] == cs[j].1
    decreases |cs|
  {
    var n := |cs| - 1;
    var init := cs[..n];
    if j < n {
      assert init[j] == cs[j];
      forall i | j < i < |init|
        ensures init[i].0 != init[j].0
      {
        assert init[i] == cs[i];
      }
      StoreAllLastWins(init, j);
    }
  }

  /** The keys `parseCookies` returns are exactly the entries' names, except `__proto__`. */
  lemma ParseEntriesKeys(entries: seq<string>, k: string)
    ensures k in ParseEntries(entries) <==>
              k != ProtoKey && exists i :: 0 <= i < |entries| && NameOf(entries[i]) == k
  {
    var cs := seq(|entries|, i requires 0 <= i < |entries| => CookieOf(entries[i]));
    StoreAllKeys(cs, k);
    if exists i :: 0 <= i < |entries| && NameOf(entries[i]) == k {
      var i :| 0 <= i < |entries| && NameOf(entries[i]) == k;
      assert cs[i].0 == k;
    }
  }

  /** For a name, `parseCookies` keeps the value from the last entry carrying it. */
  lemma ParseEntriesLastWins(entries: seq<string>, j: nat)
    requires j < |entries|
    requires NameOf(entries[j]) != ProtoKey
    requires forall i :: j < i < |entries| ==> NameOf(entries[i]) != NameOf(entries[j])
    ensures NameOf(entries[j]) in ParseEntries(entries)
    ensures ParseEntries(entries)[NameOf(entries[j])] == CookieOf(entries[j]).1
  {
    var cs := seq(|entries|, i requires 0 <= i < |entries| => CookieOf(entries[i]));
    StoreAllLastWins(cs, j);
  }

  /** An entry `name=value; attributes` yields exactly that name and value. */
  lemma CookieOfNameValue(name: string, value: string, attributes: string)
    requires '=' !in name && ';' !in name
    requires '=' !in value && ';' !in value
    ensures CookieOf(name + "=" + value + ";" + attributes) == (name, Some(value))
  {
    var entry := name + "=" + value + ";" + attributes;
    var head := name + "=" + value;
    FirstIndexAfter(head, ';', attributes);
    assert Before(entry, ';') == head;
    FirstIndexAfter(name, '=', value);
    assert Before(head, '=') == name;
    assert After(head, '=') == value;
  }

  /** A value holding `=` is cut at it: only the text between the first and second `=` is kept. */
  lemma CookieValueTruncated(name: string, value: string, tail: string, attributes: string)
    requires '=' !in name && ';' !in name
    requires '=' !in value && ';' !in value && ';' !in tail
    requires attributes == "" || attributes[0] == ';'
    ensures CookieOf(name + "=" + value + "=" + tail + attributes) == (name, Some(value))
  {
    var head := name + "=" + value + "=" + tail;
    var entry := head + attributes;
    assert ';' !in head;
    HeadBeforeAttributes(head, attributes);
    FirstIndexAfter(name, '=', value + "=" + tail);
    assert head == name + "=" + (value + "=" + tail);
    assert After(head, '=') == value + "=" + tail;
    FirstIndexAfter(value, '=', tail);
  }

  /** An entry without `=` before its first `;` stores its name with an `undefined` value. */
  lemma CookieWithoutValue(name: string, attributes: string)
    requires '=' !in name && ';' !in name
    requires attributes == "" || attributes[0] == ';'
    ensures CookieOf(name + attributes) == (name, None)
  {
    HeadBeforeAttributes(name, attributes);
  }

  /** The text before the first `;` of `head + attributes`, when `head` has none and the attributes start with one. */
  lemma HeadBeforeAttributes(head: string, attributes: string)
    requires ';' !in head
    requires attributes == "" || attributes[0] == ';'
    ensures Before(head + attributes, ';') == head
  {
    if attributes == "" {
      assert head + attributes == head;
    } else {
      assert head + attributes == head + [';'] + attributes[1..];
      FirstIndexAfter(head, ';', attributes[1..]);
    }
  }
}
