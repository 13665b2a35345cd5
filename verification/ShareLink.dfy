/** Share links and typed codes: what is printed can be read back. */
module ShareLink {
  import opened Prelude

  /** Room codes: lowercase letters and digits without the look-alikes. */
  const ROOM_ALPHABET: string := "abcdefghjkmnpqrstuvwxyz23456789"

  const MARK: string := "room/"

  /** Unicode white space. */
  predicate IsSpace(c: char) {
    var n := c as int;
    || 0x09 <= n <= 0x0D || n == 0x20 || n == 0x85 || n == 0xA0 || n == 0x1680
    || 0x2000 <= n <= 0x200A || n == 0x2028 || n == 0x2029 || n == 0x202F || n == 0x205F || n == 0x3000
  }

  predicate IsSlash(c: char) { c == '/' }

  predicate IsHash(c: char) { c == '#' }

  function TrimStart(s: string, drop: char -> bool): string {
    if s != [] && drop(s[0]) then TrimStart(s[1..], drop) else s
  }

  function TrimEnd(s: string, drop: char -> bool): string {
    if s != [] && drop(s[|s| - 1]) then TrimEnd(s[..|s| - 1], drop) else s
  }

  function Trim(s: string, drop: char -> bool): string {
    TrimEnd(TrimStart(s, drop), drop)
  }

  function LowerChar(c: char): char {
    if 'A' <= c <= 'Z' then (c as int + 32) as char else c
  }

  function ToLower(s: string): (r: string)
    ensures |r| == |s| && forall i :: 0 <= i < |s| ==> r[i] == LowerChar(s[i])
  {
    if s == [] then [] else [LowerChar(s[0])] + ToLower(s[1..])
  }

  /** Where the last occurrence of `MARK` begins. */
  function LastMark(s: string): Option<nat>
    ensures LastMark(s).Some? ==> LastMark(s).value + |MARK| <= |s|
  {
    if |s| < |MARK| then None
    else if s[|s| - |MARK|..] == MARK then Some(|s| - |MARK|)
    else LastMark(s[..|s| - 1])
  }

  function NormalizeCode(raw: string): string {
    var s := Trim(raw, IsSpace);
    ToLower(match LastMark(s)
            case Some(i) => Trim(Trim(s[i + |MARK|..], IsSlash), IsSpace)
            case None => s)
  }

  function RoomFromHash(hash: string): Option<string> {
    var trimmed := TrimStart(TrimStart(hash, IsHash), IsSlash);
    if MARK <= trimmed && |trimmed| > |MARK| then Some(trimmed[|MARK|..]) else None
  }

  function Link(origin: string, code: string): string {
    origin + "/#/room/" + code
  }

  /** What the location holds once the hash was set to `/room/<code>`. */
  function HashFor(code: string): string {
    "#/room/" + code
  }

  /** A non-empty code as the server generates them. */
  ghost predicate IsCode(code: string) {
    code != [] && forall i :: 0 <= i < |code| ==> code[i] in ROOM_ALPHABET
  }

  // ----- reading back -----

  /** A code as a user may type it: every letter in either case. */
  ghost predicate Spells(typed: string, code: string) {
    && IsCode(code) && |typed| == |code|
    && forall i :: 0 <= i < |typed| ==>
         typed[i] == code[i] || ('a' <= code[i] <= 'z' && typed[i] as int == code[i] as int - 'a' as int + 'A' as int)
  }

  lemma AlphabetIs(c: char)
    requires c in ROOM_ALPHABET
    ensures ('a' <= c <= 'z' && c != 'o') || '2' <= c <= '9'
  {
  }

  lemma CodeChar(c: char)
    requires c in ROOM_ALPHABET
    ensures !IsSpace(c) && c != '/' && c != 'o' && LowerChar(c) == c
    ensures 'a' <= c <= 'z' ==> 'A' <= (c as int - 32) as char <= 'Z'
  {
    AlphabetIs(c);
  }

  lemma TypedChar(t: char, c: char)
    requires c in ROOM_ALPHABET
    requires t == c || ('a' <= c <= 'z' && t as int == c as int - 'a' as int + 'A' as int)
    ensures !IsSpace(t) && t != '/' && t != 'o' && LowerChar(t) == c
  {
    CodeChar(c);
  }

  lemma SpelledChars(typed: string, code: string)
    requires Spells(typed, code)
    ensures typed != [] && forall i :: 0 <= i < |typed| ==> !IsSpace(typed[i]) && typed[i] != '/' && typed[i] != 'o'
    ensures ToLower(typed) == code
  {
    forall i | 0 <= i < |typed|
      ensures !IsSpace(typed[i]) && typed[i] != '/' && typed[i] != 'o' && LowerChar(typed[i]) == code[i]
    {
      TypedChar(typed[i], code[i]);
    }
  }

  lemma CodeSpells(code: string)
    requires IsCode(code)
    ensures Spells(code, code)
  {
  }

  ghost predicate AllDropped(s: string, drop: char -> bool) {
    forall i :: 0 <= i < |s| ==> drop(s[i])
  }

  lemma {:induction false} TrimStartDrops(a: string, s: string, drop: char -> bool)
    requires AllDropped(a, drop) && s != [] && !drop(s[0])
    ensures TrimStart(a + s, drop) == s
    decreases |a|
  {
    if a == [] {
      assert a + s == s;
    } else {
      assert (a + s)[1..] == a[1..] + s;
      TrimStartDrops(a[1..], s, drop);
    }
  }

  lemma {:induction false} TrimEndDrops(s: string, b: string, drop: char -> bool)
    requires AllDropped(b, drop) && s != [] && !drop(s[|s| - 1])
    ensures TrimEnd(s + b, drop) == s
    decreases |b|
  {
    if b == [] {
      assert s + b == s;
    } else {
      assert (s + b)[..|s + b| - 1] == s + b[..|b| - 1];
      TrimEndDrops(s, b[..|b| - 1], drop);
    }
  }

  /** Trimming takes off exactly what is dropped at both ends. */
  lemma TrimDrops(a: string, s: string, b: string, drop: char -> bool)
    requires AllDropped(a, drop) && AllDropped(b, drop) && s != [] && !drop(s[0]) && !drop(s[|s| - 1])
    ensures Trim(a + s + b, drop) == s
  {
    assert a + s + b == a + (s + b);
    TrimStartDrops(a, s + b, drop);
    TrimEndDrops(s, b, drop);
  }

  /** Leading drops end, at the latest, where a kept character stands. */
  lemma {:induction false} TrimStartStops(a: string, b: string, drop: char -> bool)
    requires b != [] && !drop(b[0])
    ensures exists a' :: TrimStart(a + b, drop) == a' + b
    decreases |a|
  {
    if a == [] {
      assert a + b == b;
      assert TrimStart(a + b, drop) == [] + b;
    } else if drop(a[0]) {
      assert (a + b)[1..] == a[1..] + b;
      TrimStartStops(a[1..], b, drop);
    } else {
      assert TrimStart(a + b, drop) == a + b;
    }
  }

  lemma MarkEnds(a: string)
    ensures LastMark(a + MARK) == Some(|a|)
  {
    var s := a + MARK;
    assert s[|s| - |MARK|..] == MARK;
  }

  lemma NotMarkedAtEnd(s: string)
    requires |s| >= |MARK| && s[|s| - 3] != 'o'
    ensures s[|s| - |MARK|..] != MARK
  {
    assert s[|s| - |MARK|..][2] == s[|s| - 3] && MARK[2] == 'o';
  }

  lemma MarkIsEarlier(s: string)
    requires |s| >= |MARK| && s[|s| - 3] != 'o'
    ensures LastMark(s) == LastMark(s[..|s| - 1])
  {
    NotMarkedAtEnd(s);
  }

  lemma ThirdFromLast(a: string, tail: string)
    requires tail != [] && forall i :: 0 <= i < |tail| ==> tail[i] != 'o'
    ensures var s := a + MARK + tail; s[|s| - 3] != 'o'
  {
    var s, n := a + MARK + tail, |tail|;
    if n >= 3 {
      assert s[|s| - 3] == tail[n - 3];
    } else {
      assert s[|s| - 3] == MARK[n + 2];
    }
  }

  /** Text without an `o` cannot complete a mark, so the last mark is the one before it. */
  lemma {:induction false} LastMarkBefore(a: string, tail: string)
    requires forall i :: 0 <= i < |tail| ==> tail[i] != 'o'
    ensures LastMark(a + MARK + tail) == Some(|a|)
    decreases |tail|
  {
    var s, n := a + MARK + tail, |tail|;
    if n == 0 {
      assert s == a + MARK;
      MarkEnds(a);
    } else {
      assert s[..|s| - 1] == a + MARK + tail[..n - 1];
      ThirdFromLast(a, tail);
      MarkIsEarlier(s);
      LastMarkBefore(a, tail[..n - 1]);
    }
  }

  lemma {:induction false} NoMarkWithin(s: string)
    requires forall i :: 0 <= i < |s| ==> s[i] != 'o'
    ensures LastMark(s) == None
    decreases |s|
  {
    if |s| < |MARK| {
    } else {
      MarkIsEarlier(s);
      NoMarkWithin(s[..|s| - 1]);
    }
  }

  /** Trimming white space around a marked text only shortens what stands before the mark and after the text. */
  lemma TrimReachesMark(before: string, tail: string, spaces: string) returns (a: string)
    requires tail != [] && !IsSpace(tail[|tail| - 1]) && AllDropped(spaces, IsSpace)
    ensures Trim(before + MARK + tail + spaces, IsSpace) == a + MARK + tail
  {
    var marked := MARK + tail + spaces;
    assert before + MARK + tail + spaces == before + marked;
    assert marked[0] == MARK[0] && !IsSpace(marked[0]);
    TrimStartStops(before, marked, IsSpace);
    a :| TrimStart(before + marked, IsSpace) == a + marked;
    assert a + marked == a + MARK + tail + spaces;
    TrimEndDrops(a + MARK + tail, spaces, IsSpace);
  }

  lemma DroppedHasNoO(s: string, drop: char -> bool)
    requires AllDropped(s, drop) && !drop('o')
    ensures forall i :: 0 <= i < |s| ==> s[i] != 'o'
  {
  }

  lemma MarkedReads(raw: string, a: string, tail: string)
    requires Trim(raw, IsSpace) == a + MARK + tail && forall i :: 0 <= i < |tail| ==> tail[i] != 'o'
    ensures NormalizeCode(raw) == ToLower(Trim(Trim(tail, IsSlash), IsSpace))
  {
    LastMarkBefore(a, tail);
    assert (a + MARK + tail)[|a| + |MARK|..] == tail;
  }

  /** A code in white space in slashes; white space before the last slashes needs them to stand inside. */
  ghost predicate Wraps(tail: string, typed: string) {
    exists lead, inner, outer, trail ::
      && AllDropped(lead, IsSlash) && AllDropped(trail, IsSlash)
      && AllDropped(inner, IsSpace) && AllDropped(outer, IsSpace)
      && (trail == [] ==> outer == [])
      && tail == lead + (inner + typed + outer) + trail
  }

  lemma WrapUnwraps(lead: string, inner: string, typed: string, outer: string, trail: string, code: string)
    requires Spells(typed, code)
    requires AllDropped(lead, IsSlash) && AllDropped(trail, IsSlash)
    requires AllDropped(inner, IsSpace) && AllDropped(outer, IsSpace)
    ensures Trim(Trim(lead + (inner + typed + outer) + trail, IsSlash), IsSpace) == typed
  {
    SpelledChars(typed, code);
    TrimDrops(lead, inner + typed + outer, trail, IsSlash);
    TrimDrops(inner, typed, outer, IsSpace);
  }

  lemma WrapEnds(lead: string, inner: string, typed: string, outer: string, trail: string, code: string)
    requires Spells(typed, code)
    requires AllDropped(lead, IsSlash) && AllDropped(trail, IsSlash)
    requires AllDropped(inner, IsSpace) && AllDropped(outer, IsSpace) && (trail == [] ==> outer == [])
    ensures var tail := lead + (inner + typed + outer) + trail;
            tail != [] && !IsSpace(tail[|tail| - 1]) && forall i :: 0 <= i < |tail| ==> tail[i] != 'o'
  {
    SpelledChars(typed, code);
    DroppedHasNoO(lead, IsSlash);
    DroppedHasNoO(trail, IsSlash);
    DroppedHasNoO(inner, IsSpace);
    DroppedHasNoO(outer, IsSpace);
  }

  lemma WrappedReads(tail: string, typed: string, code: string)
    requires Spells(typed, code) && Wraps(tail, typed)
    ensures tail != [] && !IsSpace(tail[|tail| - 1]) && forall i :: 0 <= i < |tail| ==> tail[i] != 'o'
    ensures ToLower(Trim(Trim(tail, IsSlash), IsSpace)) == code
  {
    var lead, inner, outer, trail :|
      && AllDropped(lead, IsSlash) && AllDropped(trail, IsSlash)
      && AllDropped(inner, IsSpace) && AllDropped(outer, IsSpace)
      && (trail == [] ==> outer == [])
      && tail == lead + (inner + typed + outer) + trail;
    WrapEnds(lead, inner, typed, outer, trail, code);
    WrapUnwraps(lead, inner, typed, outer, trail, code);
    SpelledChars(typed, code);
  }

  /**
   * Any text that ends in a mark and a code reads as that code: whatever stands before the mark, in any mix
   * of cases, with slashes around the code, white space inside them, and white space at the end.
   */
  lemma ReadsBackAfterMark(before: string, tail: string, spaces: string, typed: string, code: string)
    requires Spells(typed, code) && Wraps(tail, typed) && AllDropped(spaces, IsSpace)
    ensures NormalizeCode(before + MARK + tail + spaces) == code
  {
    WrappedReads(tail, typed, code);
    var a := TrimReachesMark(before, tail, spaces);
    MarkedReads(before + MARK + tail + spaces, a, tail);
  }

  lemma BareWraps(code: string)
    ensures Wraps(code, code)
  {
    var none: string := [];
    assert none + (none + code + none) + none == code;
    assert AllDropped(none, IsSlash) && AllDropped(none, IsSpace);
  }

  /** A link is a mark and its code, with the rest of the address before them. */
  lemma LinkIsMarked(origin: string, code: string)
    ensures Link(origin, code) == (origin + "/#/") + MARK + code + []
  {
    assert "/#/room/" == "/#/" + MARK;
  }

  /** The printed link, for every origin, reads back as its code. */
  lemma LinkRoundTrip(origin: string, code: string)
    requires IsCode(code)
    ensures NormalizeCode(Link(origin, code)) == code
  {
    CodeSpells(code);
    BareWraps(code);
    ReadsBackAfterMark(origin + "/#/", code, [], code, code);
    LinkIsMarked(origin, code);
  }

  /** So does a code typed bare, in any case, with white space around it. */
  lemma BareRoundTrip(spaces: string, typed: string, more: string, code: string)
    requires Spells(typed, code) && AllDropped(spaces, IsSpace) && AllDropped(more, IsSpace)
    ensures NormalizeCode(spaces + typed + more) == code
  {
    SpelledChars(typed, code);
    TrimDrops(spaces, typed, more, IsSpace);
    NoMarkWithin(typed);
  }

  // ----- the hash -----

  /** Hash signs, then slashes. */
  ghost predicate Leads(s: string) {
    exists n :: 0 <= n <= |s| && AllDropped(s[..n], IsHash) && AllDropped(s[n..], IsSlash)
  }

  lemma {:induction false} TrimStartIs(s: string, drop: char -> bool) returns (n: nat)
    ensures n <= |s| && AllDropped(s[..n], drop) && TrimStart(s, drop) == s[n..]
  {
    if s != [] && drop(s[0]) {
      n := TrimStartIs(s[1..], drop);
      n := n + 1;
      assert s[..n] == [s[0]] + s[1..][..n - 1];
    } else {
      n := 0;
    }
  }

  lemma NamedBehind(hash: string, code: string) returns (lead: string)
    requires RoomFromHash(hash) == Some(code)
    ensures code != [] && Leads(lead) && hash == lead + MARK + code
  {
    var n := TrimStartIs(hash, IsHash);
    var m := TrimStartIs(hash[n..], IsSlash);
    lead := hash[..n + m];
    assert lead[..n] == hash[..n] && lead[n..] == hash[n..][..m];
    assert hash[n..][m..] == MARK + code;
  }

  lemma BehindSigns(signs: string, slashes: string, code: string)
    requires code != [] && AllDropped(signs, IsHash) && AllDropped(slashes, IsSlash)
    ensures RoomFromHash(signs + slashes + MARK + code) == Some(code)
  {
    var named := MARK + code;
    var rest := slashes + named;
    assert signs + slashes + MARK + code == signs + rest;
    assert !IsHash(rest[0]);
    TrimStartDrops(signs, rest, IsHash);
    TrimStartDrops(slashes, named, IsSlash);
    assert named[|MARK|..] == code;
  }

  lemma BehindNames(lead: string, code: string)
    requires code != [] && Leads(lead)
    ensures RoomFromHash(lead + MARK + code) == Some(code)
  {
    var n :| 0 <= n <= |lead| && AllDropped(lead[..n], IsHash) && AllDropped(lead[n..], IsSlash);
    BehindSigns(lead[..n], lead[n..], code);
    assert lead[..n] + lead[n..] == lead;
  }

  /** A hash names a room exactly if, behind hash signs and slashes, it is the mark and a non-empty code. */
  lemma HashNamesIff(hash: string, code: string)
    ensures RoomFromHash(hash) == Some(code)
            <==> code != [] && exists lead :: Leads(lead) && hash == lead + MARK + code
  {
    if RoomFromHash(hash) == Some(code) {
      var lead := NamedBehind(hash, code);
    }
    if lead :| code != [] && Leads(lead) && hash == lead + MARK + code {
      BehindNames(lead, code);
    }
  }

  /** And the hash that is set is the room a reload will join; only an empty code is no room. */
  lemma HashRoundTrip(code: string)
    ensures RoomFromHash(HashFor(code)) == if code == [] then None else Some(code)
  {
    var lead := "#/";
    assert lead[..1] == "#" && lead[1..] == "/";
    assert Leads(lead);
    assert HashFor(code) == lead + MARK + code;
    HashNamesIff(HashFor(code), code);
    if code == [] {
      assert HashFor(code) == "#" + ("/" + MARK);
      TrimStartDrops("#", "/" + MARK, IsHash);
      TrimStartDrops("/", MARK, IsSlash);
    }
  }

  /** A printed link, when it is opened, has the hash that the page of that room sets. */
  lemma OpenedLinkHasTheHash(origin: string, code: string)
    ensures Link(origin, code) == origin + "/" + HashFor(code)
    ensures code != [] ==> RoomFromHash(Link(origin, code)[|origin| + 1..]) == Some(code)
  {
    assert "/#/room/" == "/" + "#/room/";
    HashRoundTrip(code);
  }
}
