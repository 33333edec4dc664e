/**
 * The derivation rule (`computeUniqpass`): the site password is the base 64
 * form of SHA-256(secret + subject), cut to `limit` characters.
 *
 * The text encoder and the digest are host primitives and enter as function
 * values; the base 64 step is the encoder of module Base64. The result is
 * produced synchronously here, where the source resolves a promise.
 */
module Uniqpass {
  import opened Wrappers
  import Base64

  type Byte = Base64.Byte

  /** The limit that keeps the whole password: the length of the base 64
      form of a 32-byte digest. */
  const DefaultLimit: nat := 44

  /** The host's UTF-8 text encoder and its SHA-256 digest. */
  datatype Primitives = Primitives(utf8: string -> seq<Byte>, sha256: seq<Byte> -> seq<Byte>)

  /** The digest yields 32 bytes for every message, as SHA-256 does. */
  ghost predicate DigestIs32Bytes(p: Primitives)
  {
    forall m :: |p.sha256(m)| == 32
  }

  /** `limit || undefined`: NaN (None) and 0 are falsy and become undefined
      (None); every other number is kept. */
  function OrUndefined(limit: Option<int>): Option<int>
  {
    if limit == Some(0) then None else limit
  }

  /** JavaScript's `s.substring(0, end)`: an undefined end means the length
      of `s`; a defined end is clamped into 0 .. |s|. */
  function Substring0(s: string, end: Option<int>): (r: string)
    ensures r <= s
    ensures end.None? ==> r == s
    ensures end.Some? && end.value <= 0 ==> r == ""
    ensures end.Some? && end.value > 0 ==> |r| == Min(end.value, |s|)
  {
    match end
    case None => s
    case Some(e) => if e <= 0 then "" else if e >= |s| then s else s[..e]
  }

  /** The full, untruncated password: base 64 of the digest of secret + subject
      (secret first, no separator). */
  function FullPassword(p: Primitives, secret: string, subject: string): string
  {
    Base64.Encode(p.sha256(p.utf8(secret + subject)))
  }

  /** `computeUniqpass(secret, subject, limit)`. */
  function ComputeUniqpass(p: Primitives, secret: string, subject: string, limit: Option<int>): (r: string)
    ensures secret == "" || subject == "" ==> r == ""
    ensures r <= FullPassword(p, secret, subject)
    ensures secret != "" && subject != "" && (limit.None? || limit == Some(0)) ==>
      r == FullPassword(p, secret, subject)
    ensures secret != "" && subject != "" && limit.Some? && limit.value > 0 ==>
      |r| == Min(limit.value, |FullPassword(p, secret, subject)|)
    ensures limit.Some? && limit.value < 0 ==> r == ""
  {
    if secret != "" && subject != "" then
      Substring0(FullPassword(p, secret, subject), OrUndefined(limit))
    else
      ""
  }

  /** With a real SHA-256, the default limit cuts nothing: the result equals
      the untruncated one and has 44 characters. */
  lemma DefaultLimitKeepsWholePassword(p: Primitives, secret: string, subject: string)
    requires DigestIs32Bytes(p)
    requires secret != "" && subject != ""
    ensures ComputeUniqpass(p, secret, subject, Some(DefaultLimit)) == ComputeUniqpass(p, secret, subject, None)
    ensures |ComputeUniqpass(p, secret, subject, Some(DefaultLimit))| == DefaultLimit
  {
  }

  /** Shorter limits give prefixes of longer ones. */
  lemma TruncationsNest(p: Primitives, secret: string, subject: string, j: int, k: int)
    requires 0 < j <= k
    ensures ComputeUniqpass(p, secret, subject, Some(j)) <= ComputeUniqpass(p, secret, subject, Some(k))
  {
  }

  /** The inputs enter only through their concatenation: splitting the same
      text differently between secret and subject gives the same password. */
  lemma OnlyConcatenationMatters(p: Primitives, secret: string, subject: string, secret': string, subject': string, limit: Option<int>)
    requires secret != "" && subject != "" && secret' != "" && subject' != ""
    requires secret + subject == secret' + subject'
    ensures ComputeUniqpass(p, secret, subject, limit) == ComputeUniqpass(p, secret', subject', limit)
  {
  }
}
