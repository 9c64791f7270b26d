/**
 * Domain names as the responder handles them: Python strings with a trailing dot.
 * `DomainName.__getattr__` (dnsserver/dumbdns.py:55-59) builds `item.domain`;
 * the zone test (dumbdns.py:88) lower-cases the query name and compares it with the apex.
 */
module DomainNames {

  /** ASCII lower-casing of one character. */
  function LowerChar(c: char): char {
    if 'A' <= c <= 'Z' then (c as int + 32) as char else c
  }

  /** `str.lower()`, on ASCII letters. */
  function Lower(s: string): (r: string)
    ensures |r| == |s| && IsLower(r)
  {
    seq(|s|, i requires 0 <= i < |s| => LowerChar(s[i]))
  }

  predicate IsLower(s: string) {
    forall i :: 0 <= i < |s| ==> !('A' <= s[i] <= 'Z')
  }

  /** `DomainName(domain).item` (attribute access): the name `item.domain`. */
  function Sub(domain: string, item: string): (r: string)
    ensures |r| == |item| + 1 + |domain| && r[..|item|] == item && EndsWith(r, "." + domain)
  {
    item + "." + domain
  }

  /** `str.endswith`. */
  predicate EndsWith(s: string, suffix: string) {
    |suffix| <= |s| && s[|s| - |suffix|..] == suffix
  }

  /** The test of dumbdns.py:88, applied to an already lower-cased name. */
  predicate InZone(apex: string, name: string) {
    name == apex || EndsWith(name, "." + apex)
  }

  /** Lower-casing keeps the length, changes only ASCII capitals, and leaves no capital behind. */
  lemma LowerSpec(s: string)
    ensures |Lower(s)| == |s| && IsLower(Lower(s))
    ensures forall i :: 0 <= i < |s| && !('A' <= s[i] <= 'Z') ==> Lower(s)[i] == s[i]
  {
  }

  /** A name with no capitals is its own lower-case form. */
  lemma LowerOfLower(s: string)
    requires IsLower(s)
    ensures Lower(s) == s
  {
  }

  /** Lower-casing works piece by piece: it distributes over concatenation. */
  lemma LowerConcat(a: string, b: string)
    ensures Lower(a + b) == Lower(a) + Lower(b)
  {
  }

  /** A name is in the zone exactly when it is the apex or `item.apex` for some item (possibly empty or dotted). */
  lemma InZoneIff(apex: string, name: string)
    ensures InZone(apex, name) <==> name == apex || exists item :: name == Sub(apex, item)
  {
    if EndsWith(name, "." + apex) {
      var item := name[..|name| - |apex| - 1];
      assert name == item + name[|name| - |apex| - 1..];
      assert name == Sub(apex, item);
    }
    if exists item :: name == Sub(apex, item) {
      var item :| name == Sub(apex, item);
      assert name[|name| - |apex| - 1..] == "." + apex;
    }
  }

  /** Every name built by `DomainName.__getattr__` on a lower-case apex passes the zone test, whatever the case of the item. */
  lemma SubInZone(apex: string, item: string)
    requires IsLower(apex)
    ensures InZone(apex, Lower(Sub(apex, item)))
  {
    LowerConcat(item + ".", apex);
    LowerConcat(item, ".");
    LowerOfLower(apex);
    InZoneIff(apex, Lower(Sub(apex, item)));
    assert Lower(Sub(apex, item)) == Sub(apex, Lower(item));
  }
}
