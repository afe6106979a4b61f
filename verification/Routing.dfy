/**
 * The queue keys of the matchmaking engine (services/matching_engine.py): the queue a user waits in
 * and the queues a user searches. An absent value and an empty string mean the same to the source,
 * so both are the empty string here.
 */
module Routing {
  import opened Text

  function NormGender(gender: string): string { if gender == "" then "unknown" else Lower(Strip(gender)) }

  function NormTarget(target: string): string { if target == "" then "any" else Lower(Strip(target)) }

  function NormProvince(province: string): string {
    if province == "" then "global" else Replace(Lower(Strip(province)), ' ', '_')
  }

  /** A queue: province, gender of those who wait in it, gender they want. */
  function Key(province: string, gender: string, wants: string): string {
    "match:queue:" + (province + ":" + (gender + ":" + ("wants_" + wants)))
  }

  function QueueKey(gender: string, target: string, province: string): string {
    Key(NormProvince(province), NormGender(gender), NormTarget(target))
  }

  function KeysWanting(p: string, g: string, wants: seq<string>): seq<string> {
    if wants == [] then [] else [Key(p, g, wants[0])] + KeysWanting(p, g, wants[1..])
  }

  function KeysOf(p: string, genders: seq<string>, wants: seq<string>): seq<string> {
    if genders == [] then [] else KeysWanting(p, genders[0], wants) + KeysOf(p, genders[1..], wants)
  }

  function KeysIn(provinces: seq<string>, genders: seq<string>, wants: seq<string>): seq<string> {
    if provinces == [] then [] else KeysOf(provinces[0], genders, wants) + KeysIn(provinces[1..], genders, wants)
  }

  function SearchedGenders(target: string): seq<string> {
    if NormTarget(target) != "any" then [NormTarget(target)] else ["male", "female"]
  }

  function SearchedProvinces(province: string): seq<string> {
    [NormProvince(province)] + if NormProvince(province) != "global" then ["global"] else []
  }

  /** The queues a user searches, in search order. */
  function TargetKeys(gender: string, target: string, province: string): seq<string> {
    KeysIn(SearchedProvinces(province), SearchedGenders(target), [NormGender(gender), "any"])
  }

  /** The two inner loops: the keys of one province. */
  method KeysOfProvince(p: string, genders: seq<string>, wants: seq<string>) returns (keys: seq<string>)
    ensures keys == KeysOf(p, genders, wants)
  {
    keys := [];
    var j := 0;
    while j < |genders|
      invariant 0 <= j <= |genders|
      invariant keys + KeysOf(p, genders[j..], wants) == KeysOf(p, genders, wants)
    {
      var g := genders[j];
      ghost var done := keys;
      KeysOfAt(keys, p, genders, j, wants);
      var k := 0;
      while k < |wants|
        invariant 0 <= k <= |wants|
        invariant keys + KeysWanting(p, g, wants[k..]) == done + KeysWanting(p, g, wants)
      {
        KeysWantingAt(keys, p, g, wants, k);
        keys := keys + [Key(p, g, wants[k])];
        k := k + 1;
      }
      assert wants[k..] == [] && keys == done + KeysWanting(p, g, wants);
      j := j + 1;
    }
  }

  method GetTargetQueueKeys(gender: string, target: string, province: string) returns (keys: seq<string>)
    ensures keys == TargetKeys(gender, target, province)
  {
    keys := KeysOfProvinces(SearchedProvinces(province), SearchedGenders(target), [NormGender(gender), "any"]);
  }

  /** The outer loop. */
  method KeysOfProvinces(provinces: seq<string>, genders: seq<string>, wants: seq<string>) returns (keys: seq<string>)
    ensures keys == KeysIn(provinces, genders, wants)
  {
    keys := [];
    var i := 0;
    while i < |provinces|
      invariant 0 <= i <= |provinces|
      invariant keys + KeysIn(provinces[i..], genders, wants) == KeysIn(provinces, genders, wants)
    {
      var more := KeysOfProvince(provinces[i], genders, wants);
      KeysInAt(keys, provinces, i, genders, wants);
      keys := keys + more;
      i := i + 1;
    }
    assert provinces[i..] == [];
  }

  lemma KeysWantingAt(done: seq<string>, p: string, g: string, wants: seq<string>, k: nat)
    requires k < |wants|
    ensures done + KeysWanting(p, g, wants[k..]) == done + [Key(p, g, wants[k])] + KeysWanting(p, g, wants[k + 1..])
  {
    assert wants[k..][1..] == wants[k + 1..];
  }

  lemma KeysOfAt(done: seq<string>, p: string, genders: seq<string>, j: nat, wants: seq<string>)
    requires j < |genders|
    ensures done + KeysOf(p, genders[j..], wants) ==
              done + KeysWanting(p, genders[j], wants) + KeysOf(p, genders[j + 1..], wants)
  {
    assert genders[j..][1..] == genders[j + 1..];
  }

  lemma KeysInAt(done: seq<string>, provinces: seq<string>, i: nat, genders: seq<string>, wants: seq<string>)
    requires i < |provinces|
    ensures done + KeysIn(provinces[i..], genders, wants) ==
              done + KeysOf(provinces[i], genders, wants) + KeysIn(provinces[i + 1..], genders, wants)
  {
    assert provinces[i..][1..] == provinces[i + 1..];
  }

  lemma {:induction false} InKeysWanting(p: string, g: string, wants: seq<string>, key: string)
    ensures key in KeysWanting(p, g, wants) <==> exists w :: w in wants && key == Key(p, g, w)
  {
    if wants != [] {
      InKeysWanting(p, g, wants[1..], key);
    }
  }

  lemma {:induction false} InKeysOf(p: string, genders: seq<string>, wants: seq<string>, key: string)
    ensures key in KeysOf(p, genders, wants) <==> exists g, w :: g in genders && w in wants && key == Key(p, g, w)
  {
    if genders != [] {
      InKeysWanting(p, genders[0], wants, key);
      InKeysOf(p, genders[1..], wants, key);
    }
  }

  lemma {:induction false} InKeysIn(provinces: seq<string>, genders: seq<string>, wants: seq<string>, key: string)
    ensures key in KeysIn(provinces, genders, wants) <==>
      exists p, g, w :: p in provinces && g in genders && w in wants && key == Key(p, g, w)
  {
    if provinces != [] {
      InKeysOf(provinces[0], genders, wants, key);
      InKeysIn(provinces[1..], genders, wants, key);
    }
  }

  lemma ColonSplit(a: string, b: string, c: string, d: string)
    requires ':' !in a && ':' !in c && a + (":" + b) == c + (":" + d)
    ensures a == c && b == d
  {
    var s, t := a + (":" + b), c + (":" + d);
    assert s[|a|] == ':' && t[|c|] == ':';
    assert t[|a|] == ':' && s[|c|] == ':';
    assert |a| == |c|;
    assert a == s[..|a|] && c == t[..|c|];
    assert b == s[|a| + 1..] && d == t[|c| + 1..];
  }

  lemma SamePrefix(x: string, a: string, b: string)
    requires x + a == x + b
    ensures a == b
  {
    assert a == (x + a)[|x|..] && b == (x + b)[|x|..];
  }

  /** Different queues have different keys, as long as provinces and genders hold no colon. */
  lemma KeyInjective(p: string, g: string, w: string, p': string, g': string, w': string)
    requires ':' !in p && ':' !in g && ':' !in p' && ':' !in g'
    requires Key(p, g, w) == Key(p', g', w')
    ensures p == p' && g == g' && w == w'
  {
    var x, x' := g + (":" + ("wants_" + w)), g' + (":" + ("wants_" + w'));
    assert Key(p, g, w) == "match:queue:" + (p + (":" + x));
    assert Key(p', g', w') == "match:queue:" + (p' + (":" + x'));
    SamePrefix("match:queue:", p + (":" + x), p' + (":" + x'));
    ColonSplit(p, x, p', x');
    ColonSplit(g, "wants_" + w, g', "wants_" + w');
    SamePrefix("wants_", w, w');
  }

  /** A user looking for `target` would accept a partner of gender `gender`; both normalised. */
  predicate Accepts(target: string, gender: string) { target == "any" || target == gender }

  /**
   * The search of A reaches the queue (p, g, w) exactly when A accepts gender g, those waiting there
   * accept A's gender, and they wait in A's province or globally.
   */
  lemma RoutingExact(gender: string, target: string, province: string, p: string, g: string, w: string)
    requires g in {"male", "female"}
    requires ':' !in NormTarget(target) && ':' !in NormProvince(province) && ':' !in p
    ensures Key(p, g, w) in TargetKeys(gender, target, province) <==>
      && Accepts(NormTarget(target), g)
      && Accepts(w, NormGender(gender))
      && (p == NormProvince(province) || p == "global")
  {
    var provinces, genders, wants := SearchedProvinces(province), SearchedGenders(target), [NormGender(gender), "any"];
    InKeysIn(provinces, genders, wants, Key(p, g, w));
    SearchedNames(target, province);
    if Key(p, g, w) in TargetKeys(gender, target, province) {
      var p', g', w' :| p' in provinces && g' in genders && w' in wants && Key(p, g, w) == Key(p', g', w');
      KeyInjective(p, g, w, p', g', w');
      assert p in provinces && g in genders && w in wants;
    }
    assert w in wants <==> Accepts(w, NormGender(gender));
    assert g in genders <==> Accepts(NormTarget(target), g);
    assert p in provinces <==> p == NormProvince(province) || p == "global";
  }

  lemma SearchedNames(target: string, province: string)
    requires ':' !in NormTarget(target) && ':' !in NormProvince(province)
    ensures forall g :: g in SearchedGenders(target) ==> ':' !in g
    ensures forall p :: p in SearchedProvinces(province) ==> ':' !in p
    ensures ':' !in "male" && ':' !in "female"
    ensures forall g :: g in {"male", "female"} ==> (g in SearchedGenders(target) <==> Accepts(NormTarget(target), g))
    ensures forall p :: p in SearchedProvinces(province) <==> p == NormProvince(province) || p == "global"
  {
    assert ':' !in "global" && ':' !in "male" && ':' !in "female";
    var provinces := SearchedProvinces(province);
    assert provinces[0] == NormProvince(province);
    assert NormProvince(province) != "global" ==> provinces[1] == "global";
  }

  /** In terms of two users: B's own queue is searched by A exactly when the two accept each other. */
  lemma UsersRoutedExactly(gA: string, tA: string, pA: string, gB: string, tB: string, pB: string)
    requires NormGender(gB) in {"male", "female"}
    requires ':' !in NormTarget(tA) && ':' !in NormProvince(pA) && ':' !in NormProvince(pB)
    ensures QueueKey(gB, tB, pB) in TargetKeys(gA, tA, pA) <==>
      && Accepts(NormTarget(tA), NormGender(gB))
      && Accepts(NormTarget(tB), NormGender(gA))
      && (NormProvince(pB) == NormProvince(pA) || NormProvince(pB) == "global")
  {
    RoutingExact(gA, tA, pA, NormProvince(pB), NormGender(gB), NormTarget(tB));
  }

  // ---------------------------------------------------------------- what the names and keys are

  /** `h` is the lower-case text `g` in any case. */
  predicate SameUpToCase(h: string, g: string) {
    && |h| == |g|
    && forall i :: 0 <= i < |g| ==>
         !('A' <= g[i] <= 'Z') && (h[i] == g[i] || ('a' <= g[i] <= 'z' && h[i] as int + 32 == g[i] as int))
  }

  lemma LowerIs(h: string, g: string)
    requires SameUpToCase(h, g)
    ensures Lower(h) == g
  {
  }

  lemma StripBetween(a: string, h: string, b: string)
    requires Blank(a) && Blank(b) && h != "" && !IsSpace(h[0]) && !IsSpace(h[|h| - 1])
    ensures Strip(a + h + b) == h
  {
    var s := a + h + b;
    assert s[..|a|] == a && s[|a| + |h|..] == b && s[|a|..|a| + |h|] == h;
    assert s[|a|] == h[0] && s[|a| + |h| - 1] == h[|h| - 1];
    StripUnique(s, |a|, |a| + |h|);
  }

  /**
   * Gender, wish and province are read without the white space around them and in lower case, an
   * absent one as `unknown`, `any` and `global`; the spaces inside a province become underscores.
   */
  lemma NamesNormalised(a: string, h: string, b: string, g: string)
    requires Blank(a) && Blank(b) && h != "" && !IsSpace(h[0]) && !IsSpace(h[|h| - 1]) && SameUpToCase(h, g)
    ensures NormGender(a + h + b) == g && NormTarget(a + h + b) == g
    ensures |NormProvince(a + h + b)| == |g|
    ensures forall i :: 0 <= i < |g| ==> NormProvince(a + h + b)[i] == if g[i] == ' ' then '_' else g[i]
    ensures NormGender("") == "unknown" && NormTarget("") == "any" && NormProvince("") == "global"
  {
    StripBetween(a, h, b);
    LowerIs(h, g);
  }

  /** The keys in search order: own province first, men before women, those who want this gender first. */
  lemma TargetKeysInOrder(gender: string, target: string, province: string)
    ensures
      var g, t, p := NormGender(gender), NormTarget(target), NormProvince(province);
      TargetKeys(gender, target, province) ==
        if t != "any" && p == "global" then [Key(p, t, g), Key(p, t, "any")]
        else if t != "any" then [Key(p, t, g), Key(p, t, "any"), Key("global", t, g), Key("global", t, "any")]
        else if p == "global" then
          [Key(p, "male", g), Key(p, "male", "any"), Key(p, "female", g), Key(p, "female", "any")]
        else
          [Key(p, "male", g), Key(p, "male", "any"), Key(p, "female", g), Key(p, "female", "any"),
           Key("global", "male", g), Key("global", "male", "any"),
           Key("global", "female", g), Key("global", "female", "any")]
  {
    var g, t, p := NormGender(gender), NormTarget(target), NormProvince(province);
    if t != "any" {
      KeysOfOne(p, t, g);
      KeysOfOne("global", t, g);
      KeysInTwo(p, [t], g);
    } else {
      KeysOfTwo(p, "male", "female", g);
      KeysOfTwo("global", "male", "female", g);
      KeysInTwo(p, ["male", "female"], g);
    }
  }

  lemma TwoWants(p: string, x: string, g: string)
    ensures KeysWanting(p, x, [g, "any"]) == [Key(p, x, g), Key(p, x, "any")]
  {
    assert [g, "any"][1..] == ["any"] && ["any"][1..] == [];
    assert KeysWanting(p, x, ["any"]) == [Key(p, x, "any")];
  }

  lemma KeysOfOne(p: string, x: string, g: string)
    ensures KeysOf(p, [x], [g, "any"]) == [Key(p, x, g), Key(p, x, "any")]
  {
    TwoWants(p, x, g);
    assert [x][1..] == [];
  }

  lemma KeysOfTwo(p: string, x: string, y: string, g: string)
    ensures KeysOf(p, [x, y], [g, "any"]) == [Key(p, x, g), Key(p, x, "any"), Key(p, y, g), Key(p, y, "any")]
  {
    TwoWants(p, x, g);
    KeysOfOne(p, y, g);
    assert [x, y][1..] == [y];
  }

  lemma KeysInTwo(p: string, genders: seq<string>, g: string)
    ensures KeysIn([p], genders, [g, "any"]) == KeysOf(p, genders, [g, "any"])
    ensures KeysIn([p, "global"], genders, [g, "any"]) ==
              KeysOf(p, genders, [g, "any"]) + KeysOf("global", genders, [g, "any"])
  {
    assert [p, "global"][1..] == ["global"] && ["global"][1..] == [] && [p][1..] == [];
  }
}
