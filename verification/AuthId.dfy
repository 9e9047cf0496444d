/** The connection identifiers that Hysteria2 hands to the kernel and takes apart again in every callback. */
module AuthId {
  import opened Wrappers
  import opened Decimal

  // ---------------------------------------------------------------- cutting at "|"

  predicate NoBar(s: string) { forall i :: 0 <= i < |s| ==> s[i] != '|' }

  function FirstBar(s: string): (n: nat)
    ensures n <= |s| && NoBar(s[..n]) && (n < |s| ==> s[n] == '|')
  {
    if s == "" || s[0] == '|' then 0
    else
      var n := FirstBar(s[1..]);
      assert s[..n + 1] == [s[0]] + s[1..][..n];
      n + 1
  }

  /** `strings.LastIndex(s[..n], "|")`. */
  function LastBar(s: string, n: nat): (i: int)
    requires n <= |s|
    ensures -1 <= i < n && (i >= 0 ==> s[i] == '|') && forall j :: i < j < n ==> s[j] != '|'
  {
    if n == 0 then -1 else if s[n - 1] == '|' then n - 1 else LastBar(s, n - 1)
  }

  /** The halves of `strings.Cut(s, "|")`: without a bar all is before it. */
  function Before(s: string): string { s[..FirstBar(s)] }

  function After(s: string): string {
    if FirstBar(s) < |s| then s[FirstBar(s) + 1..] else ""
  }

  lemma {:induction false} CutAt(a: string, b: string)
    requires NoBar(a)
    ensures FirstBar(a + "|" + b) == |a| && Before(a + "|" + b) == a && After(a + "|" + b) == b
  {
    var s := a + "|" + b;
    if a == "" {
      assert s[0] == '|';
    } else {
      CutAt(a[1..], b);
      assert s[1..] == a[1..] + "|" + b;
    }
  }

  lemma LastCutAt(a: string, b: string)
    requires NoBar(b)
    ensures var s := a + "|" + b; LastBar(s, |s|) == |a| && s[..|a|] == a && s[|a| + 1..] == b
  {
    var s := a + "|" + b;
    assert s[|a|] == '|';
    assert forall j :: |a| < j < |s| ==> s[j] == b[j - |a| - 1];
  }

  // ---------------------------------------------------------------- encoders

  function AuthID(cred: string, host: string, uid: int): string {
    "uid:" + Itoa(uid) + "|" + (cred + "|" + host)
  }

  datatype UserRecord = UserRecord(uid: int, identity: string, kickVersion: nat)

  function AccountAuthID(cred: string, host: string, user: UserRecord): string {
    "kick:" + Digits(user.kickVersion) + "|" +
    ((if user.identity != "" then "acct:" + user.identity + "|" else "") + AuthID(cred, host, user.uid))
  }

  function ConnectionAuthID(n: nat, id: string): string {
    "conn:" + Digits(n) + "|" + id
  }

  // ---------------------------------------------------------------- decoders

  function StripConnection(id: string): string {
    if "conn:" <= id then After(id) else id
  }

  function StripKick(id: string): string {
    if "kick:" <= id then After(id) else id
  }

  function StripAccount(id: string): string {
    if "acct:" <= id then After(id) else id
  }

  function TrafficUID(id: string): int {
    var rest := StripAccount(StripKick(StripConnection(id)));
    if FirstBar(rest) == |rest| || !("uid:" <= Before(rest)) then 0 else Atoi(Before(rest)[4..])
  }

  function CutUid(rest: string): string {
    if TrafficUID(rest) > 0 then After(rest) else rest
  }

  function SplitAtLast(tail: string): (string, string) {
    var i := LastBar(tail, |tail|);
    if i >= 0 then (tail[..i], tail[i + 1..]) else (tail, "")
  }

  function SplitAuthID(id: string): (string, string) {
    SplitAtLast(CutUid(StripAccount(StripKick(StripConnection(id)))))
  }

  function TrafficIdentity(id: string): string {
    var prefix := Before(StripKick(StripConnection(id)));
    if "acct:" <= prefix then prefix[5..] else ""
  }

  function AuthKickVersion(id: string): nat {
    var rest := StripConnection(id);
    if "kick:" <= rest then ParseUint(Before(rest)[5..]) else 0
  }

  // ---------------------------------------------------------------- the round trip

  lemma {:induction false} DigitsNoBar(n: nat)
    ensures NoBar(Digits(n))
  {
    assert forall i :: 0 <= i < |Digits(n)| ==> IsDigit(Digits(n)[i]);
  }

  lemma ItoaNoBar(n: int)
    ensures NoBar(Itoa(n))
  {
    DigitsNoBar(if n < 0 then -n else n);
  }

  /** How an identifier reads: kick version, identity if there is one, account id, credential and host, and in front of
      it all the connection's number, each before a bar. */
  lemma Layout(n: nat, cred: string, host: string, user: UserRecord)
    ensures var account := if user.identity == "" then "" else "acct:" + user.identity + "|";
            var tail := "uid:" + Itoa(user.uid) + "|" + cred + "|" + host;
            ConnectionAuthID(n, AccountAuthID(cred, host, user)) ==
            "conn:" + Digits(n) + "|" + "kick:" + Digits(user.kickVersion) + "|" + account + tail
  {
    var account := if user.identity == "" then "" else "acct:" + user.identity + "|";
    var kick, conn := "kick:" + Digits(user.kickVersion) + "|", "conn:" + Digits(n) + "|";
    ConcatAssoc("uid:" + Itoa(user.uid) + "|", cred, "|" + host);
    ConcatAssoc("uid:" + Itoa(user.uid) + "|" + cred, "|", host);
    ConcatAssoc(cred, "|", host);
    ConcatAssoc(kick, account, AuthID(cred, host, user.uid));
    ConcatAssoc(conn, kick, account + AuthID(cred, host, user.uid));
    ConcatAssoc(conn + kick, account, AuthID(cred, host, user.uid));
    ConcatAssoc(conn, "kick:" + Digits(user.kickVersion), "|");
    ConcatAssoc(conn, "kick:", Digits(user.kickVersion));
  }

  predicate InRange(user: UserRecord) {
    -MAX_INT64 - 1 <= user.uid <= MAX_INT64 && user.kickVersion <= MAX_UINT64
  }

  predicate Clean(user: UserRecord, host: string) {
    user.uid > 0 && NoBar(host) && NoBar(user.identity)
  }

  /** What stands behind the kick segment, and behind the account segment. */
  function Tail(cred: string, host: string, user: UserRecord): string {
    (if user.identity != "" then "acct:" + user.identity + "|" else "") + AuthID(cred, host, user.uid)
  }

  lemma StripConnectionUndoes(n: nat, id: string)
    ensures StripConnection(ConnectionAuthID(n, id)) == id
  {
    DigitsNoBar(n);
    CutAt("conn:" + Digits(n), id);
  }

  lemma AccountStarts(cred: string, host: string, user: UserRecord)
    ensures var id := AccountAuthID(cred, host, user);
            && StripConnection(id) == id && "kick:" <= id
            && Before(id) == "kick:" + Digits(user.kickVersion) && StripKick(id) == Tail(cred, host, user)
  {
    DigitsNoBar(user.kickVersion);
    CutAt("kick:" + Digits(user.kickVersion), Tail(cred, host, user));
  }

  lemma KickVersionDecodes(cred: string, host: string, user: UserRecord)
    requires InRange(user)
    ensures AuthKickVersion(AccountAuthID(cred, host, user)) == user.kickVersion
  {
    AccountStarts(cred, host, user);
    assert ("kick:" + Digits(user.kickVersion))[5..] == Digits(user.kickVersion);
    ValueOfDigits(user.kickVersion);
  }

  lemma AuthIDCut(cred: string, host: string, uid: int)
    ensures var id := AuthID(cred, host, uid);
            && StripConnection(id) == id && StripKick(id) == id && StripAccount(id) == id
            && FirstBar(id) < |id| && Before(id) == "uid:" + Itoa(uid) && After(id) == cred + "|" + host
  {
    ItoaNoBar(uid);
    CutAt("uid:" + Itoa(uid), cred + "|" + host);
    assert AuthID(cred, host, uid)[0] == 'u';
  }

  lemma AuthIDUid(cred: string, host: string, uid: int)
    requires -MAX_INT64 - 1 <= uid <= MAX_INT64
    ensures TrafficUID(AuthID(cred, host, uid)) == uid
  {
    AuthIDCut(cred, host, uid);
    assert ("uid:" + Itoa(uid))[4..] == Itoa(uid);
    AtoiOfItoa(uid);
  }

  lemma TailStrips(cred: string, host: string, user: UserRecord)
    requires NoBar(user.identity)
    ensures StripAccount(Tail(cred, host, user)) == AuthID(cred, host, user.uid)
  {
    if user.identity == "" {
      assert Tail(cred, host, user) == AuthID(cred, host, user.uid);
      AuthIDCut(cred, host, user.uid);
    } else {
      assert Tail(cred, host, user) == "acct:" + user.identity + "|" + AuthID(cred, host, user.uid);
      CutAt("acct:" + user.identity, AuthID(cred, host, user.uid));
    }
  }

  lemma UidDecodes(cred: string, host: string, user: UserRecord)
    requires InRange(user) && NoBar(user.identity)
    ensures TrafficUID(AccountAuthID(cred, host, user)) == user.uid
  {
    AccountStarts(cred, host, user);
    TailStrips(cred, host, user);
    AuthIDCut(cred, host, user.uid);
    AuthIDUid(cred, host, user.uid);
  }

  /** The identity comes back exactly if it holds no bar. */
  lemma IdentityDecodes(cred: string, host: string, user: UserRecord)
    ensures TrafficIdentity(AccountAuthID(cred, host, user)) == user.identity <==> NoBar(user.identity)
  {
    AccountStarts(cred, host, user);
    var tail := Tail(cred, host, user);
    if user.identity == "" {
      assert tail == AuthID(cred, host, user.uid);
      AuthIDCut(cred, host, user.uid);
      assert Before(tail)[0] == 'u';
    } else {
      assert tail == "acct:" + user.identity + "|" + AuthID(cred, host, user.uid);
      if NoBar(user.identity) {
        CutAt("acct:" + user.identity, AuthID(cred, host, user.uid));
        assert ("acct:" + user.identity)[5..] == user.identity;
      }
    }
  }

  lemma SplitTail(cred: string, host: string)
    ensures var s := cred + "|" + host; var i := LastBar(s, |s|);
            i >= 0 && ((s[..i], s[i + 1..]) == (cred, host) <==> NoBar(host))
  {
    var s := cred + "|" + host;
    assert s[|cred|] == '|';
    var i := LastBar(s, |s|);
    var rest := s[i + 1..];
    assert NoBar(rest);
    if NoBar(host) { LastCutAt(cred, host); }
  }

  lemma SplitLonger(cred: string, host: string, uid: int)
    ensures var s := AuthID(cred, host, uid); var i := LastBar(s, |s|); i >= 0 ==> (s[..i], s[i + 1..]) != (cred, host)
  {
    var s := AuthID(cred, host, uid);
    assert |s| >= 5 + |cred| + 1 + |host|;
  }

  /** Credential and host come back, whatever the credential, exactly if the account id is positive and the
      host holds no bar. */
  lemma SplitDecodes(cred: string, host: string, user: UserRecord)
    requires InRange(user) && NoBar(user.identity)
    ensures SplitAuthID(AccountAuthID(cred, host, user)) == (cred, host) <==> user.uid > 0 && NoBar(host)
  {
    AccountStarts(cred, host, user);
    TailStrips(cred, host, user);
    AuthIDCut(cred, host, user.uid);
    AuthIDUid(cred, host, user.uid);
    if user.uid > 0 {
      SplitTail(cred, host);
    } else {
      SplitLonger(cred, host, user.uid);
      BarInAuthID(cred, host, user.uid);
    }
  }

  lemma BarInAuthID(cred: string, host: string, uid: int)
    ensures var s := AuthID(cred, host, uid); LastBar(s, |s|) >= 0
  {
    AuthIDCut(cred, host, uid);
    var s := AuthID(cred, host, uid);
    assert s[FirstBar(s)] == '|';
  }

  predicate Decodes(id: string, cred: string, host: string, user: UserRecord) {
    && TrafficUID(id) == user.uid && SplitAuthID(id) == (cred, host)
    && TrafficIdentity(id) == user.identity && AuthKickVersion(id) == user.kickVersion
  }

  /** The four decoders recover everything that was encoded if and only if the account id is positive and
      neither host nor identity holds a bar. */
  lemma EverythingDecodes(cred: string, host: string, user: UserRecord)
    requires InRange(user)
    ensures Decodes(AccountAuthID(cred, host, user), cred, host, user) <==> Clean(user, host)
  {
    IdentityDecodes(cred, host, user);
    if NoBar(user.identity) {
      KickVersionDecodes(cred, host, user);
      UidDecodes(cred, host, user);
      SplitDecodes(cred, host, user);
    }
  }

  lemma SameUid(a: string, b: string)
    requires StripConnection(a) == StripConnection(b)
    ensures TrafficUID(a) == TrafficUID(b)
  {
  }

  lemma SameSplit(a: string, b: string)
    requires StripConnection(a) == StripConnection(b)
    ensures SplitAuthID(a) == SplitAuthID(b)
  {
  }

  lemma SameIdentity(a: string, b: string)
    requires StripConnection(a) == StripConnection(b)
    ensures TrafficIdentity(a) == TrafficIdentity(b)
  {
  }

  lemma SameVersion(a: string, b: string)
    requires StripConnection(a) == StripConnection(b)
    ensures AuthKickVersion(a) == AuthKickVersion(b)
  {
  }

  /** The connection prefix changes nothing that a decoder sees. */
  lemma ConnectionInvisible(n: nat, cred: string, host: string, user: UserRecord)
    ensures var id := AccountAuthID(cred, host, user); var conn := ConnectionAuthID(n, id);
            && TrafficUID(conn) == TrafficUID(id) && SplitAuthID(conn) == SplitAuthID(id)
            && TrafficIdentity(conn) == TrafficIdentity(id) && AuthKickVersion(conn) == AuthKickVersion(id)
            && StripConnection(conn) == id
  {
    var id := AccountAuthID(cred, host, user);
    StripConnectionUndoes(n, id);
    AccountStarts(cred, host, user);
    SameUid(ConnectionAuthID(n, id), id);
    SameSplit(ConnectionAuthID(n, id), id);
    SameIdentity(ConnectionAuthID(n, id), id);
    SameVersion(ConnectionAuthID(n, id), id);
  }

  /** Connections with different numbers have different identifiers, whatever they identify. */
  lemma ConnectionsDiffer(m: nat, a: string, n: nat, b: string)
    requires m != n
    ensures ConnectionAuthID(m, a) != ConnectionAuthID(n, b)
  {
    DigitsNoBar(m);
    DigitsNoBar(n);
    CutAt("conn:" + Digits(m), a);
    CutAt("conn:" + Digits(n), b);
    assert ("conn:" + Digits(m))[5..] == Digits(m) && ("conn:" + Digits(n))[5..] == Digits(n);
    DigitsInjective(m, n);
  }

  /** The counter behind `connectionAuthID`, a uint64. */
  class ConnectionSeq {
    var last: nat

    constructor ()
      ensures last == 0
    {
      last := 0;
    }

    method Next(id: string) returns (conn: string)
      modifies this
      ensures last == if old(last) >= MAX_UINT64 then 0 else old(last) + 1
      ensures conn == ConnectionAuthID(last, id)
    {
      last := if last >= MAX_UINT64 then 0 else last + 1;
      conn := "conn:" + Digits(last) + "|" + id;
    }
  }
}
