/** Recovering a not-found error from the text of a remote error, so that it
    prints as the text it came from. */
module NotFoundErrors {
  import opened Strings
  import opened Wrappers

  /** `Undef` is the undefined CID; otherwise only the version matters here. */
  datatype Cid = Undef | Cid(version: nat, id: string)

  /** The CID library: decoding accepts more spellings than printing produces. */
  datatype Codec = Codec(decode: string -> Option<Cid>, show: Cid -> string)

  const KEY := "ipld: could not find "
  const BLOCKSTORE_KEY := "blockstore: block not found"
  const NODE := "node"
  const BASE32: char := 'b'

  predicate IsCidBreak(c: char) {
    c == ' ' || c == '\t' || c == '\n' || c == '\r' || c == '\U{000B}' || c == '\U{000C}' || c == ';' || c == '\"'
  }

  datatype Error =
    | NoError
    | NotFound(cid: Cid)
    | Wrapped(pre: string, post: string, cid: Cid)
    | BlockNotFound(msg: string)

  /** How the not-found error of a CID prints. */
  function NotFoundText(codec: Codec, c: Cid): string {
    KEY + (if c.Undef? then NODE else codec.show(c))
  }

  function Text(codec: Codec, e: Error): string {
    match e
    case NoError => ""
    case NotFound(c) => NotFoundText(codec, c)
    case Wrapped(pre, post, c) => pre + NotFoundText(codec, c) + post
    case BlockNotFound(msg) => msg
  }

  /** The first place where `sub` occurs. */
  function Index(s: string, sub: string): (r: Option<nat>)
    ensures r.Some? ==> At(s, sub, r.value) && forall i: nat :: i < r.value ==> !At(s, sub, i)
    ensures r.None? ==> !Contains(s, sub)
  {
    IndexFrom(s, sub, 0)
  }

  function IndexFrom(s: string, sub: string, from: nat): (r: Option<nat>)
    requires from <= |s| && forall i: nat :: i < from ==> !At(s, sub, i)
    ensures r.Some? ==> At(s, sub, r.value) && forall i: nat :: i < r.value ==> !At(s, sub, i)
    ensures r.None? ==> !Contains(s, sub)
    decreases |s| - from
  {
    if At(s, sub, from) then Some(from)
    else if from == |s| then None
    else IndexFrom(s, sub, from + 1)
  }

  /** How many characters precede the first break character. */
  function BreakIndex(s: string): (n: nat)
    ensures n <= |s| && (forall i :: 0 <= i < n ==> !IsCidBreak(s[i])) && (n < |s| ==> IsCidBreak(s[n]))
  {
    if s == "" || IsCidBreak(s[0]) then 0 else 1 + BreakIndex(s[1..])
  }

  /** Splits off the CID that follows the key phrase: the CID and where it ends. */
  function ParseCid(codec: Codec, s: string): Option<(Cid, nat)> {
    if NODE <= s then Some((Undef, |NODE|))
    else
      var n := BreakIndex(s);
      match codec.decode(s[..n])
      case None => None
      case Some(c) =>
        if c.Cid? && c.version != 0 && !(n > 0 && s[0] == BASE32) then None else Some((c, n))
  }

  function ParseIpldNotFound(codec: Codec, msg: string): Option<Error> {
    match Index(msg, KEY)
    case None => None
    case Some(k) =>
      var tail := msg[k + |KEY|..];
      match ParseCid(codec, tail)
      case None => None
      case Some((c, n)) =>
        if k > 0 || n < |tail| then Some(Wrapped(msg[..k], tail[n..], c)) else Some(NotFound(c))
  }

  function ParseBlockstoreNotFound(msg: string): Option<Error> {
    if Index(msg, BLOCKSTORE_KEY).Some? then Some(BlockNotFound(msg)) else None
  }

  /** The whole parser; `None` means the message was not handled. */
  function ParseErrNotFound(codec: Codec, msg: string): Option<Error> {
    if msg == "" then Some(NoError)
    else match ParseIpldNotFound(codec, msg)
         case Some(e) => Some(e)
         case None => ParseBlockstoreNotFound(msg)
  }

  /** The text begins with the name of an undefined CID, or it is, up to the first
      break character, a CID of version 0 or in base 32. */
  ghost predicate StartsWithCid(codec: Codec, s: string) {
    NODE <= s || exists n: nat :: IsCid(codec, s, n)
  }

  ghost predicate IsCid(codec: Codec, s: string, n: nat) {
    && n <= |s| && (forall i :: 0 <= i < n ==> !IsCidBreak(s[i])) && (n == |s| || IsCidBreak(s[n]))
    && codec.decode(s[..n]).Some?
    && var c := codec.decode(s[..n]).value; c.Undef? || c.version == 0 || (n > 0 && s[0] == BASE32)
  }

  ghost predicate FirstAt(msg: string, sub: string, k: nat) {
    At(msg, sub, k) && forall i: nat :: i < k ==> !At(msg, sub, i)
  }

  /** A CID follows the first key phrase. */
  ghost predicate NamesCid(codec: Codec, msg: string) {
    exists k: nat :: FirstAt(msg, KEY, k) && StartsWithCid(codec, msg[k + |KEY|..])
  }

  lemma ParseCidIff(codec: Codec, s: string)
    ensures ParseCid(codec, s).Some? <==> StartsWithCid(codec, s)
  {
    if n: nat :| IsCid(codec, s, n) {
      BreakUnique(s, n);
    }
    if ParseCid(codec, s).Some? && !(NODE <= s) {
      assert IsCid(codec, s, BreakIndex(s));
    }
  }

  lemma BreakUnique(s: string, n: nat)
    requires n <= |s| && (forall i :: 0 <= i < n ==> !IsCidBreak(s[i])) && (n == |s| || IsCidBreak(s[n]))
    ensures n == BreakIndex(s)
  {
    hide IsCidBreak;
    var b := BreakIndex(s);
  }

  lemma FirstKey(msg: string, sub: string)
    ensures forall k: nat :: FirstAt(msg, sub, k) <==> Index(msg, sub) == Some(k)
  {
    hide At;
    forall k: nat | FirstAt(msg, sub, k) ensures Index(msg, sub) == Some(k) {
      AtContains(msg, sub, k);
    }
  }

  lemma AtContains(s: string, sub: string, k: nat)
    requires At(s, sub, k)
    ensures Contains(s, sub)
  {
  }

  /** Which messages are handled, and how: those that name a CID, and of the others
      those that speak of a blockstore. */
  lemma HandledIff(codec: Codec, msg: string)
    ensures ParseErrNotFound(codec, msg).Some? <==>
            msg == "" || NamesCid(codec, msg) || Contains(msg, BLOCKSTORE_KEY)
    ensures ParseErrNotFound(codec, msg) == Some(BlockNotFound(msg)) <==>
            msg != "" && !NamesCid(codec, msg) && Contains(msg, BLOCKSTORE_KEY)
  {
    FirstKey(msg, KEY);
    FirstKey(msg, BLOCKSTORE_KEY);
    assert Index(msg, BLOCKSTORE_KEY).Some? <==> Contains(msg, BLOCKSTORE_KEY) by {
      if Index(msg, BLOCKSTORE_KEY).Some? {
        AtContains(msg, BLOCKSTORE_KEY, Index(msg, BLOCKSTORE_KEY).value);
      }
    }
    if k: nat :| Index(msg, KEY) == Some(k) {
      ParseCidIff(codec, msg[k + |KEY|..]);
    }
    hide At, FirstAt, ParseCid, StartsWithCid, Contains, Index;
    assert ParseIpldNotFound(codec, msg).Some? <==> NamesCid(codec, msg);
  }

  /** The spelling of the CID that is recognised in a message, if any is, is the
      one that printing produces. */
  predicate CanonicalSpelling(codec: Codec, msg: string) {
    match Index(msg, KEY)
    case None => true
    case Some(k) =>
      var tail := msg[k + |KEY|..];
      match ParseCid(codec, tail)
      case None => true
      case Some((c, n)) => c.Undef? || codec.show(c) == tail[..n]
  }

  /** Decoding never yields the undefined CID. */
  ghost predicate Lawful(codec: Codec) {
    forall s :: codec.decode(s).Some? ==> codec.decode(s).value.Cid?
  }

  /** The CID prints to a spelling that decodes to it, with no break character, in
      the shape of version 0 or in base 32. */
  ghost predicate CanonicalCid(codec: Codec, c: Cid) {
    var s := codec.show(c);
    && c.Cid? && codec.decode(s) == Some(c)
    && (forall i :: 0 <= i < |s| ==> !IsCidBreak(s[i]))
    && (if c.version == 0 then "Qm" <= s else |s| > 0 && s[0] == BASE32)
  }

  lemma Cancel(a: string, x: string, y: string, b: string)
    ensures a + x + b == a + y + b <==> x == y
  {
    if a + x + b == a + y + b {
      assert |x| == |y|;
      assert (a + x + b)[|a|..|a| + |x|] == x && (a + y + b)[|a|..|a| + |y|] == y;
    }
  }

  /** A message around a recognised CID is its three parts. */
  lemma SplitMessage(msg: string, k: nat, n: nat)
    requires At(msg, KEY, k) && n <= |msg[k + |KEY|..]|
    ensures msg == (msg[..k] + KEY) + msg[k + |KEY|..][..n] + msg[k + |KEY|..][n..]
  {
    assert msg == msg[..k] + msg[k..k + |KEY|] + msg[k + |KEY|..];
  }

  /** Printing a handled message gives back the message if and only if the message
      spells its CID the way CIDs are printed. */
  lemma RoundTripIff(codec: Codec, msg: string)
    requires Lawful(codec) && ParseErrNotFound(codec, msg).Some?
    ensures Text(codec, ParseErrNotFound(codec, msg).value) == msg <==> CanonicalSpelling(codec, msg)
  {
    if ParseIpldNotFound(codec, msg).Some? {
      var k := Index(msg, KEY).value;
      var tail := msg[k + |KEY|..];
      var (c, n) := ParseCid(codec, tail).value;
      var name := if c.Undef? then NODE else codec.show(c);
      SplitMessage(msg, k, n);
      Cancel(msg[..k] + KEY, name, tail[..n], tail[n..]);
      PrintedText(codec, msg, k, n, c);
    }
  }

  lemma PrintedText(codec: Codec, msg: string, k: nat, n: nat, c: Cid)
    requires Index(msg, KEY) == Some(k) && ParseCid(codec, msg[k + |KEY|..]) == Some((c, n))
    ensures ParseErrNotFound(codec, msg).Some?
    ensures Text(codec, ParseErrNotFound(codec, msg).value) ==
            (msg[..k] + KEY) + (if c.Undef? then NODE else codec.show(c)) + msg[k + |KEY|..][n..]
  {
    assert At(msg, KEY, k);
    hide BreakIndex, IsCidBreak;
    var tail := msg[k + |KEY|..];
    var name := if c.Undef? then NODE else codec.show(c);
    var e := if k > 0 || n < |tail| then Wrapped(msg[..k], tail[n..], c) else NotFound(c);
    assert ParseErrNotFound(codec, msg) == Some(e);
    Assoc(msg[..k], KEY, name, tail[n..]);
    if k == 0 && n == |tail| {
      assert msg[..k] + (KEY + name) + tail[n..] == KEY + name;
    }
  }

  lemma Assoc(a: string, b: string, c: string, d: string)
    ensures (a + b) + c + d == a + (b + c) + d
  {
  }

  lemma NoOverlap(msg: string, i: nat, j: nat)
    requires i < j && At(msg, KEY, i) && At(msg, KEY, j)
    ensures i + |KEY| <= j
  {
    var a := msg[i..i + |KEY|];
    assert forall d :: 0 <= d < |a| ==> a[d] == msg[i + d];
    assert msg[j..j + |KEY|][0] == msg[j] && msg[j..j + |KEY|][1] == msg[j + 1];
  }

  /** The key phrase overlaps no shifted copy of itself, so the first occurrence
      after a prefix without it is right behind that prefix. */
  lemma KeyFound(pre: string, rest: string)
    requires !Contains(pre, KEY)
    ensures Index(pre + KEY + rest, KEY) == Some(|pre|)
  {
    var msg := pre + KEY + rest;
    assert At(msg, KEY, |pre|);
    forall i: nat | i < |pre| ensures !At(msg, KEY, i) {
      if At(msg, KEY, i) {
        NoOverlap(msg, i, |pre|);
        assert pre[i..i + |KEY|] == msg[i..i + |KEY|];
        assert At(pre, KEY, i) ==> Contains(pre, KEY);
      }
    }
  }

  lemma {:induction false} BreakAfter(token: string, post: string)
    requires forall i :: 0 <= i < |token| ==> !IsCidBreak(token[i])
    requires post != "" ==> IsCidBreak(post[0])
    ensures BreakIndex(token + post) == |token|
  {
    if token == "" {
      assert token + post == post;
    } else {
      BreakAfter(token[1..], post);
      assert (token + post)[1..] == token[1..] + post;
    }
  }

  /** Parsing a message assembled around the not-found text of a CID recovers
      exactly the three parts: for any prefix without the key phrase, and for any
      suffix when the CID is undefined, otherwise for a canonical CID and a suffix
      that is empty or starts with a break character. */
  lemma RecoversParts(codec: Codec, pre: string, c: Cid, post: string)
    requires !Contains(pre, KEY)
    requires c.Undef? || (CanonicalCid(codec, c) && (post != "" ==> IsCidBreak(post[0])))
    ensures ParseErrNotFound(codec, pre + NotFoundText(codec, c) + post) ==
            Some(if pre == "" && post == "" then NotFound(c) else Wrapped(pre, post, c))
  {
    var name := if c.Undef? then NODE else codec.show(c);
    var msg := pre + NotFoundText(codec, c) + post;
    assert msg == pre + KEY + (name + post);
    KeyFound(pre, name + post);
    var tail := msg[|pre| + |KEY|..];
    assert tail == name + post && msg[..|pre|] == pre && tail[..|name|] == name && tail[|name|..] == post;
    if !c.Undef? {
      BreakAfter(name, post);
      assert name[0] == tail[0];
    }
    assert ParseCid(codec, tail) == Some((c, |name|));
  }

  /** Base 32 is decoded without regard to case. */
  ghost predicate IgnoresCase(codec: Codec) {
    forall s, t :: s != "" && t != "" && s[0] == BASE32 && t[0] == BASE32 && EqualFold(s, t) ==>
      codec.decode(s) == codec.decode(t)
  }

  /** It does happen, with every decoder that ignores case: writing any letter of a
      base 32 CID in upper case makes a message that is handled but prints with that
      letter in lower case. */
  lemma OtherSpellingLost(codec: Codec, pre: string, c: Cid, post: string, i: nat)
    requires Lawful(codec) && IgnoresCase(codec) && CanonicalCid(codec, c) && c.version != 0
    requires !Contains(pre, KEY) && (post != "" ==> IsCidBreak(post[0]))
    requires 0 < i < |codec.show(c)| && 'a' <= codec.show(c)[i] <= 'z'
    ensures var msg := pre + KEY + (codec.show(c)[i := UpperChar(codec.show(c)[i])] + post);
      && ParseErrNotFound(codec, msg).Some?
      && Text(codec, ParseErrNotFound(codec, msg).value) == pre + NotFoundText(codec, c) + post
      && Text(codec, ParseErrNotFound(codec, msg).value) != msg
  {
    var name := codec.show(c);
    var other := name[i := UpperChar(name[i])];
    OtherDecodes(codec, c, i);
    SpellingParsed(codec, pre, other, post, c);
    SpellingDiffers(pre + KEY, name, other, post);
    Assoc(pre, KEY, name, post);
    Assoc3(pre, KEY, other, post);
    assert pre + NotFoundText(codec, c) + post == (pre + KEY) + name + post;
    hide *;
  }

  lemma Assoc3(a: string, b: string, c: string, d: string)
    ensures (a + b) + c + d == a + b + (c + d)
  {
  }

  lemma OtherDecodes(codec: Codec, c: Cid, i: nat)
    requires IgnoresCase(codec) && CanonicalCid(codec, c) && c.version != 0
    requires 0 < i < |codec.show(c)| && 'a' <= codec.show(c)[i] <= 'z'
    ensures var other := codec.show(c)[i := UpperChar(codec.show(c)[i])];
      && other != codec.show(c) && other[0] == BASE32 && codec.decode(other) == Some(c)
      && forall k :: 0 <= k < |other| ==> !IsCidBreak(other[k])
  {
    var name := codec.show(c);
    var other := name[i := UpperChar(name[i])];
    assert other[i] != name[i];
    assert EqualFold(name, other) && name[0] == other[0] == BASE32;
  }

  /** A message with any base 32 spelling of a CID prints with the canonical one. */
  lemma SpellingParsed(codec: Codec, pre: string, s: string, post: string, c: Cid)
    requires c.Cid? && s != "" && s[0] == BASE32 && codec.decode(s) == Some(c)
    requires forall k :: 0 <= k < |s| ==> !IsCidBreak(s[k])
    requires !Contains(pre, KEY) && (post != "" ==> IsCidBreak(post[0]))
    ensures var msg := pre + KEY + (s + post);
      && ParseErrNotFound(codec, msg).Some?
      && Text(codec, ParseErrNotFound(codec, msg).value) == (pre + KEY) + codec.show(c) + post
  {
    var msg := pre + KEY + (s + post);
    KeyFound(pre, s + post);
    var tail := msg[|pre| + |KEY|..];
    assert tail == s + post && msg[..|pre|] == pre;
    BreakAfter(s, post);
    assert tail[..|s|] == s && tail[|s|..] == post && tail[0] == BASE32;
    assert !(NODE <= tail) && ParseCid(codec, tail) == Some((c, |s|));
    PrintedText(codec, msg, |pre|, |s|, c);
    hide *;
  }

  lemma SpellingDiffers(a: string, x: string, y: string, b: string)
    requires x != y
    ensures a + x + b != a + y + b
  {
    Cancel(a, x, y, b);
  }
}
