/** The tenant namespace: three routines read the room-id format `<tenant><sep><rest>` on
    their own (splitting, enforcing, filtering) and must agree.
    A `char` stands for one byte of a Go string. */
module TenantGate {

  const MAX_TENANT_ID_LEN := 63

  datatype Error =
    | EmptyTenant
    | EmptyRoom
    | RoomMissingPrefix
    | TenantMismatch
    | InvalidTenant
    | RestHasSeparator

  datatype Result<+T> = Ok(value: T) | Err(error: Error)

  datatype RoomName = RoomName(tenant: string, rest: string)

  predicate AllowedByte(c: char) {
    'a' <= c <= 'z' || 'A' <= c <= 'Z' || '0' <= c <= '9' || c == '-' || c == '_'
  }

  predicate OnlyAllowedBytes(s: string) {
    forall i :: 0 <= i < |s| ==> AllowedByte(s[i])
  }

  /** The verdict of validateTenant, without its loop. */
  function TenantVerdict(sep: char, tenant: string): Result<()> {
    if tenant == "" then Err(EmptyTenant)
    else if |tenant| <= MAX_TENANT_ID_LEN && OnlyAllowedBytes(tenant) && sep !in tenant then Ok(())
    else Err(InvalidTenant)
  }

  predicate ValidTenant(sep: char, tenant: string) {
    TenantVerdict(sep, tenant).Ok?
  }

  method ValidateTenant(sep: char, tenant: string) returns (r: Result<()>)
    ensures r == TenantVerdict(sep, tenant)
    ensures r.Ok? <==> && 1 <= |tenant| <= 63 && sep !in tenant
                       && forall i :: 0 <= i < |tenant| ==>
                            var c := tenant[i];
                            'a' <= c <= 'z' || 'A' <= c <= 'Z' || '0' <= c <= '9' || c == '-' || c == '_'
    ensures r.Err? ==> r.error == if tenant == "" then EmptyTenant else InvalidTenant
  {
    if tenant == "" {
      return Err(EmptyTenant);
    }
    if |tenant| > MAX_TENANT_ID_LEN {
      return Err(InvalidTenant);
    }
    var i := 0;
    while i < |tenant|
      invariant 0 <= i <= |tenant|
      invariant OnlyAllowedBytes(tenant[..i])
    {
      if !AllowedByte(tenant[i]) {
        return Err(InvalidTenant);
      }
      i := i + 1;
    }
    assert tenant[..i] == tenant;
    if sep in tenant {
      return Err(InvalidTenant);
    }
    return Ok(());
  }

  /** `strings.Index`: where `c` first occurs, or |s| when it does not. */
  function IndexOf(s: string, c: char): (i: nat)
    ensures i <= |s| && c !in s[..i]
    ensures i < |s| ==> s[i] == c
    ensures i == |s| <==> c !in s
  {
    if s == "" then 0
    else if s[0] == c then 0
    else
      var i := 1 + IndexOf(s[1..], c);
      assert s[..i] == [s[0]] + s[1..][..i-1];
      i
  }

  function QualifyRoom(sep: char, tenant: string, rest: string): Result<string> {
    var verdict := TenantVerdict(sep, tenant);
    if verdict.Err? then Err(verdict.error)
    else if rest == "" then Err(EmptyRoom)
    else if sep in rest then Err(RestHasSeparator)
    else Ok(tenant + [sep] + rest)
  }

  function SplitRoom(sep: char, roomId: string): Result<RoomName> {
    if roomId == "" then Err(EmptyRoom)
    else
      var i := IndexOf(roomId, sep);
      if i == |roomId| then Err(RoomMissingPrefix)
      else
        var tenant, rest := roomId[..i], roomId[i+1..];
        if tenant == "" || rest == "" then Err(RoomMissingPrefix)
        else
          var verdict := TenantVerdict(sep, tenant);
          if verdict.Err? then Err(verdict.error) else Ok(RoomName(tenant, rest))
  }

  function EnforceRoom(sep: char, wantTenant: string, roomId: string): Result<()> {
    var verdict := TenantVerdict(sep, wantTenant);
    if verdict.Err? then verdict
    else
      var got := SplitRoom(sep, roomId);
      if got.Err? then Err(got.error)
      else if got.value.tenant != wantTenant then Err(TenantMismatch)
      else Ok(())
  }

  /** The order-preserving subsequence of ids that EnforceRoom accepts. */
  function Accepted(sep: char, wantTenant: string, roomIds: seq<string>): seq<string> {
    if roomIds == [] then []
    else
      var n := |roomIds| - 1;
      var front := Accepted(sep, wantTenant, roomIds[..n]);
      if EnforceRoom(sep, wantTenant, roomIds[n]).Ok? then front + [roomIds[n]] else front
  }

  /** The prefix test of FilterRooms and the parser of EnforceRoom accept the same ids. */
  lemma PrefixMeansEnforced(sep: char, wantTenant: string, roomId: string)
    requires ValidTenant(sep, wantTenant)
    ensures (wantTenant + [sep] <= roomId && |roomId| > |wantTenant| + 1)
            <==> EnforceRoom(sep, wantTenant, roomId).Ok?
  {
    var i := IndexOf(roomId, sep);
    var n := |wantTenant|;
    assert forall j :: 0 <= j < n ==> wantTenant[j] != sep;
    assert forall j :: 0 <= j < i ==> roomId[..i][j] == roomId[j] && roomId[j] != sep;
    if wantTenant + [sep] <= roomId {
      assert forall j :: 0 <= j < n ==> roomId[j] == wantTenant[j];
      assert roomId[n] == sep;
      assert roomId[..n] == wantTenant;
    }
    if i < |roomId| && roomId[..i] == wantTenant {
      assert wantTenant + [sep] == roomId[..i+1];
    }
  }

  method FilterRooms(sep: char, wantTenant: string, roomIds: seq<string>) returns (out: seq<string>)
    ensures out == Accepted(sep, wantTenant, roomIds)
  {
    out := [];
    var verdict := ValidateTenant(sep, wantTenant);
    if verdict.Err? {
      NothingAccepted(sep, wantTenant, roomIds);
      return;
    }
    var prefix := wantTenant + [sep];
    for i := 0 to |roomIds|
      invariant out == Accepted(sep, wantTenant, roomIds[..i])
    {
      var r := roomIds[i];
      PrefixMeansEnforced(sep, wantTenant, r);
      if prefix <= r && |r| > |prefix| {
        out := out + [r];
      }
      assert roomIds[..i+1][..i] == roomIds[..i];
    }
    assert roomIds[..|roomIds|] == roomIds;
  }

  lemma {:induction false} NothingAccepted(sep: char, wantTenant: string, roomIds: seq<string>)
    requires !ValidTenant(sep, wantTenant)
    ensures Accepted(sep, wantTenant, roomIds) == []
  {
    if roomIds != [] { NothingAccepted(sep, wantTenant, roomIds[..|roomIds|-1]); }
  }

  /** A valid tenant and any non-empty rest are found again, separators in the rest or not. */
  lemma SplitFindsTheParts(sep: char, tenant: string, rest: string)
    requires ValidTenant(sep, tenant) && rest != ""
    ensures SplitRoom(sep, tenant + [sep] + rest) == Ok(RoomName(tenant, rest))
  {
    var id := tenant + [sep] + rest;
    PrefixMeansEnforced(sep, tenant, id);
    assert id[|tenant|+1..] == rest;
  }

  /** Which ids split, into what, and which error the others get. */
  lemma SplitOutcome(sep: char, roomId: string)
    ensures var r := SplitRoom(sep, roomId);
            && (r.Ok? <==> exists tenant, rest ::
                  ValidTenant(sep, tenant) && rest != "" && roomId == tenant + [sep] + rest)
            && (r == Err(EmptyRoom) <==> roomId == "")
            && (r == Err(RoomMissingPrefix) <==>
                  roomId != "" && (sep !in roomId || roomId[0] == sep || sep !in roomId[..|roomId|-1]))
            && (r.Err? ==> r.error in {EmptyRoom, RoomMissingPrefix, InvalidTenant})
  {
    var i := IndexOf(roomId, sep);
    if SplitRoom(sep, roomId).Ok? { QualifyUndoesSplit(sep, roomId); }
    forall tenant, rest | ValidTenant(sep, tenant) && rest != "" && roomId == tenant + [sep] + rest
      ensures SplitRoom(sep, roomId).Ok?
    {
      SplitFindsTheParts(sep, tenant, rest);
    }
    if i < |roomId| {
      assert forall j :: 0 <= j < i ==> roomId[..i][j] == roomId[j];
      assert sep in roomId[..|roomId|-1] <==> i < |roomId| - 1 by {
        if i < |roomId| - 1 { assert roomId[..|roomId|-1][i] == sep; }
      }
    }
  }

  /** The order in which a bad tenant, a bad room and a foreign room are found. */
  lemma EnforceOutcome(sep: char, wantTenant: string, roomId: string)
    ensures var r, got := EnforceRoom(sep, wantTenant, roomId), SplitRoom(sep, roomId);
            && (r.Ok? <==> ValidTenant(sep, wantTenant) && got.Ok? && got.value.tenant == wantTenant)
            && (!ValidTenant(sep, wantTenant) ==> r == TenantVerdict(sep, wantTenant))
            && (ValidTenant(sep, wantTenant) && got.Err? ==> r == Err(got.error))
            && (r == Err(TenantMismatch) <==> ValidTenant(sep, wantTenant) && got.Ok? && got.value.tenant != wantTenant)
  {
    SplitOutcome(sep, roomId);
  }

  lemma QualifyOutcome(sep: char, tenant: string, rest: string)
    ensures var r := QualifyRoom(sep, tenant, rest);
            && (r.Ok? <==> ValidTenant(sep, tenant) && rest != "" && sep !in rest)
            && (r.Ok? ==> r.value == tenant + [sep] + rest)
            && (!ValidTenant(sep, tenant) ==> r == Err(TenantVerdict(sep, tenant).error))
            && (ValidTenant(sep, tenant) ==> (r == Err(EmptyRoom) <==> rest == "")
                                             && (r == Err(RestHasSeparator) <==> sep in rest))
  {}

  /** Splitting undoes qualifying. */
  lemma SplitUndoesQualify(sep: char, tenant: string, rest: string)
    requires QualifyRoom(sep, tenant, rest).Ok?
    ensures SplitRoom(sep, QualifyRoom(sep, tenant, rest).value) == Ok(RoomName(tenant, rest))
  {
    SplitFindsTheParts(sep, tenant, rest);
  }

  /** Qualifying undoes splitting exactly when the rest carries no separator. */
  lemma QualifyUndoesSplit(sep: char, roomId: string)
    requires SplitRoom(sep, roomId).Ok?
    ensures var name := SplitRoom(sep, roomId).value;
            && roomId == name.tenant + [sep] + name.rest
            && (QualifyRoom(sep, name.tenant, name.rest) == Ok(roomId) <==> sep !in name.rest)
  {
    var i := IndexOf(roomId, sep);
    assert roomId == roomId[..i] + [sep] + roomId[i+1..];
  }

  /** A tenant that comes out of splitting is one the gate accepts. */
  lemma GateAdmits(sep: char, roomId: string)
    requires SplitRoom(sep, roomId).Ok?
    ensures ValidTenant(sep, SplitRoom(sep, roomId).value.tenant)
  {}

  /** Two ids that split alike are the same id. */
  lemma SplitInjective(sep: char, a: string, b: string)
    requires SplitRoom(sep, a).Ok? && SplitRoom(sep, a) == SplitRoom(sep, b)
    ensures a == b
  {
    QualifyUndoesSplit(sep, a);
    QualifyUndoesSplit(sep, b);
  }

  /** An id enforced for a tenant begins with that tenant and the separator, and nobody else's. */
  lemma OneTenantPerRoom(sep: char, a: string, b: string, roomId: string)
    requires EnforceRoom(sep, a, roomId).Ok? && EnforceRoom(sep, b, roomId).Ok?
    ensures a == b && a + [sep] <= roomId
  {
    PrefixMeansEnforced(sep, a, roomId);
  }
}
