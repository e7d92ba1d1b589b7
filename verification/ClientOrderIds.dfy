/**
  Client order ids as strings: "ftb-", twelve characters of the session's hash, "-", and a suffix for
  the action kind.  This is what lets the other modules use the kind itself as the client id.
*/
module ClientOrderIds {
  import opened FunctionalVocabulary

  const OWNER := "ftb-"
  const DIGEST_LENGTH: nat := 12

  /** The kinds a session can claim: generations run from 1 to the cleanup cap. */
  predicate Claimable(k: Kind) {
    match k
    case CleanupSell(g) => 1 <= g <= MAX_CLEANUP_ACTIONS
    case Cancel(g) => 1 <= g <= MAX_CLEANUP_ACTIONS
    case _ => true
  }

  predicate Digest(s: string) { |s| == DIGEST_LENGTH && forall i :: 0 <= i < |s| ==> s[i] in "0123456789abcdef" }

  /** The decimal text of a generation; the first is not written. */
  function GenerationText(g: nat): string
    requires 1 <= g <= MAX_CLEANUP_ACTIONS
  {
    if g == 1 then "" else if g < 10 then ["0123456789"[g]] else ['1', "0123456789"[g - 10]]
  }

  function Suffix(k: Kind): string
    requires Claimable(k)
  {
    match k
    case Buy => "b"
    case Sell => "s"
    case CleanupSell(g) => "f" + GenerationText(g)
    case Cancel(g) => "c" + GenerationText(g)
  }

  function OwnedPrefix(digest: string): string { OWNER + digest + "-" }

  function ClientOrderId(digest: string, k: Kind): string
    requires Claimable(k)
  {
    OwnedPrefix(digest) + Suffix(k)
  }

  /** A generation the pattern [2-9]|1[0-2] matches. */
  function GenerationOf(text: string): Option<nat> {
    if text == "" then Some(1)
    else if |text| == 1 && '2' <= text[0] <= '9' then Some(text[0] as int - '0' as int)
    else if |text| == 2 && text[0] == '1' && '0' <= text[1] <= '2' then Some(10 + (text[1] as int - '0' as int))
    else None
  }

  /** The text after the last '-' of an id, if there is one. */
  function Tail(id: string): Option<string> {
    if id == "" then None
    else if id[|id| - 1] == '-' then Some("")
    else
      match Tail(id[..|id| - 1])
      case None => None
      case Some(t) => Some(t + [id[|id| - 1]])
  }

  /** The generation of a cleanup id ending in "-", the prefix letter and a generation. */
  function GenerationFromClientId(id: string, letter: char): Option<nat> {
    match Tail(id)
    case None => None
    case Some(t) => if t != "" && t[0] == letter then GenerationOf(t[1..]) else None
  }

  /** The kind a client id stands for, however it was obtained. */
  function KindOf(id: string): Option<Kind> {
    match Tail(id)
    case Some("b") => Some(Buy)
    case Some("s") => Some(Sell)
    case _ =>
      match GenerationFromClientId(id, 'f')
      case Some(g) => Some(CleanupSell(g))
      case None =>
        match GenerationFromClientId(id, 'c')
        case Some(g) => Some(Cancel(g))
        case None => None
  }

  lemma {:induction false} TailAfterDash(before: string, suffix: string)
    requires forall i :: 0 <= i < |suffix| ==> suffix[i] != '-'
    ensures Tail(before + "-" + suffix) == Some(suffix)
    decreases |suffix|
  {
    if suffix == "" {
      assert before + "-" + suffix == before + "-";
    } else {
      var n := |suffix| - 1;
      var id := before + "-" + suffix;
      assert id[..|id| - 1] == before + "-" + suffix[..n];
      TailAfterDash(before, suffix[..n]);
      assert suffix == suffix[..n] + [suffix[n]];
    }
  }

  lemma GenerationRoundTrip(g: nat)
    requires 1 <= g <= MAX_CLEANUP_ACTIONS
    ensures GenerationOf(GenerationText(g)) == Some(g)
    ensures forall i :: 0 <= i < |GenerationText(g)| ==> GenerationText(g)[i] != '-'
  {}

  lemma SuffixHasNoDash(k: Kind)
    requires Claimable(k)
    ensures forall i :: 0 <= i < |Suffix(k)| ==> Suffix(k)[i] != '-'
  {
    if k.ForCleanup() { GenerationRoundTrip(k.generation); }
  }

  /** Decoding a derived client id gives back the kind it was derived for. */
  lemma KindRoundTrip(digest: string, k: Kind)
    requires Claimable(k)
    ensures KindOf(ClientOrderId(digest, k)) == Some(k)
  {
    SuffixHasNoDash(k);
    TailAfterDash(OWNER + digest, Suffix(k));
    assert ClientOrderId(digest, k) == (OWNER + digest) + "-" + Suffix(k);
    if k.ForCleanup() {
      GenerationRoundTrip(k.generation);
      assert Suffix(k)[1..] == GenerationText(k.generation);
    }
  }

  /** The ids as the exchange sees them. */
  lemma IdFormat(digest: string, k: Kind)
    requires Digest(digest) && Claimable(k)
    ensures ClientOrderId(digest, Buy) == "ftb-" + digest + "-b" && ClientOrderId(digest, Sell) == "ftb-" + digest + "-s"
    ensures ClientOrderId(digest, CleanupSell(1)) == "ftb-" + digest + "-f" && ClientOrderId(digest, Cancel(1)) == "ftb-" + digest + "-c"
    ensures ClientOrderId(digest, CleanupSell(2)) == "ftb-" + digest + "-f2" && ClientOrderId(digest, Cancel(12)) == "ftb-" + digest + "-c12"
    ensures |ClientOrderId(digest, k)| <= 20
  {
    assert "ftb-" + digest + "-" + "b" == "ftb-" + digest + "-b" && "ftb-" + digest + "-" + "s" == "ftb-" + digest + "-s";
    assert "ftb-" + digest + "-" + "f" == "ftb-" + digest + "-f" && "ftb-" + digest + "-" + "c" == "ftb-" + digest + "-c";
    assert "ftb-" + digest + "-" + "f2" == "ftb-" + digest + "-f2" && "ftb-" + digest + "-" + "c12" == "ftb-" + digest + "-c12";
  }

  /** Different kinds, or different session digests, never share a client id. */
  lemma ClientIdsAreDistinct(a: string, k: Kind, b: string, m: Kind)
    requires Digest(a) && Digest(b) && Claimable(k) && Claimable(m)
    ensures ClientOrderId(a, k) == ClientOrderId(b, m) <==> a == b && k == m
  {
    if ClientOrderId(a, k) == ClientOrderId(b, m) {
      KindRoundTrip(a, k);
      KindRoundTrip(b, m);
      OwnedByOneSession(a, b, k);
    }
  }

  /** An order carries a session's owned prefix exactly when it is that session's. */
  lemma OwnedByOneSession(a: string, b: string, k: Kind)
    requires |a| == |b| == DIGEST_LENGTH && Claimable(k)
    ensures OwnedPrefix(b) <= ClientOrderId(a, k) <==> a == b
  {
    var id := ClientOrderId(a, k);
    assert id[|OWNER|..|OWNER| + DIGEST_LENGTH] == a;
    if OwnedPrefix(b) <= id {
      assert id[|OWNER|..|OWNER| + DIGEST_LENGTH] == OwnedPrefix(b)[|OWNER|..|OWNER| + DIGEST_LENGTH] == b;
    }
  }
}
