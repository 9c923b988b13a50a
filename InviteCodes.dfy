/** The founder's invitation codes: the random code generator (its random
    draws are supplied as alphabet indices), the batch insert, the code list
    with claimer names, and the available/claimed split. */
module InviteCodes {
  import opened Base
  import Seqs

  /** Thirty-two characters: the capitals without I and O, and the digits 2-9. */
  const LETTERS: string := "ABCDEFGHJKLMNPQRSTUVWXYZ"
  const DIGITS: string := "23456789"
  const ALPHABET: string := LETTERS + DIGITS
  const DEFAULT_LENGTH: nat := 8
  const MISSING: string := "—"

  datatype Role = Early | MentorInvite

  /** A row for `invitation_codes.insert`. */
  datatype NewCode = NewCode(code: string, createdBy: string, role: Role)

  /** A stored code; `claimedBy` is the claimer's id or null. */
  datatype CodeRow = CodeRow(id: string, code: string, role: Role, claimedBy: Option<string>)

  /** A listed code with its claimer's name: absent when unclaimed. */
  datatype ListedCode = ListedCode(row: CodeRow, claimerName: Option<string>)

  datatype ClaimerProfile = ClaimerProfile(id: string, fullName: Option<string>)

  ghost predicate Ascending(s: string) {
    forall i :: 0 <= i < |s| - 1 ==> s[i] < s[i + 1]
  }

  lemma {:induction false} AscendingStrict(s: string, i: nat, j: nat)
    requires Ascending(s) && i < j < |s|
    ensures s[i] < s[j]
    decreases j - i
  {
    if i + 1 < j {
      AscendingStrict(s, i + 1, j);
    }
  }

  lemma HalvesAscending()
    ensures Ascending(LETTERS) && Ascending(DIGITS)
  {
  }

  /** The capitals come after the digits, so the two halves of the alphabet
      share no character. */
  lemma HalvesApart(i: nat, j: nat)
    requires i < |LETTERS| && j < |DIGITS|
    ensures DIGITS[j] < LETTERS[i]
  {
    HalvesAscending();
    assert LETTERS[0] == 'A' && DIGITS[|DIGITS| - 1] == '9';
    if i > 0 {
      AscendingStrict(LETTERS, 0, i);
    }
    if j < |DIGITS| - 1 {
      AscendingStrict(DIGITS, j, |DIGITS| - 1);
    }
  }

  /** The alphabet has 32 characters, no two of them alike. */
  lemma AlphabetDistinct()
    ensures |ALPHABET| == 32
    ensures Seqs.NoDuplicates(ALPHABET)
  {
    var n := |LETTERS|;
    HalvesAscending();
    forall i, j | 0 <= i < j < |ALPHABET| ensures ALPHABET[i] != ALPHABET[j] {
      if j < n {
        AscendingStrict(LETTERS, i, j);
        assert ALPHABET[i] == LETTERS[i] && ALPHABET[j] == LETTERS[j];
      } else if n <= i {
        AscendingStrict(DIGITS, i - n, j - n);
        assert ALPHABET[i] == DIGITS[i - n] && ALPHABET[j] == DIGITS[j - n];
      } else {
        HalvesApart(i, j - n);
        assert ALPHABET[i] == LETTERS[i] && ALPHABET[j] == DIGITS[j - n];
      }
    }
  }

  /** A character strictly between two neighbours of an ascending string is
      not in it. */
  lemma NotInGap(s: string, k: nat, c: char)
    requires Ascending(s) && k + 1 < |s| && s[k] < c < s[k + 1]
    ensures c !in s
  {
    forall i | 0 <= i < |s| ensures s[i] != c {
      if i < k {
        AscendingStrict(s, i, k);
      } else if k + 1 < i {
        AscendingStrict(s, k + 1, i);
      }
    }
  }

  /** A character outside the range of an ascending string is not in it. */
  lemma NotInRange(s: string, c: char)
    requires Ascending(s) && |s| > 0 && (c < s[0] || s[|s| - 1] < c)
    ensures c !in s
  {
    forall i | 0 <= i < |s| ensures s[i] != c {
      if 0 < i {
        AscendingStrict(s, 0, i);
      }
      if i < |s| - 1 {
        AscendingStrict(s, i, |s| - 1);
      }
    }
  }

  /** None of the look-alikes I, O, 0 and 1 is in the alphabet. */
  lemma NoLookAlikes()
    ensures 'I' !in ALPHABET && 'O' !in ALPHABET && '0' !in ALPHABET && '1' !in ALPHABET
  {
    HalvesAscending();
    NotInGap(LETTERS, 7, 'I');
    NotInGap(LETTERS, 12, 'O');
    NotInRange(LETTERS, '0');
    NotInRange(LETTERS, '1');
    NotInRange(DIGITS, 'I');
    NotInRange(DIGITS, 'O');
    NotInRange(DIGITS, '0');
    NotInRange(DIGITS, '1');
  }

  /** The code drawn by `picks`: one alphabet character per draw. */
  function Code(picks: seq<nat>, length: nat): (code: string)
    requires |picks| >= length && forall i :: 0 <= i < |picks| ==> picks[i] < |ALPHABET|
    ensures |code| == length
    ensures forall i :: 0 <= i < length ==> code[i] == ALPHABET[picks[i]]
  {
    seq(length, i requires 0 <= i < length => ALPHABET[picks[i]])
  }

  /** Every character of a code comes from the alphabet, so none is a look-alike. */
  lemma CodeInAlphabet(picks: seq<nat>, length: nat)
    requires |picks| >= length && forall i :: 0 <= i < |picks| ==> picks[i] < |ALPHABET|
    ensures forall i :: 0 <= i < length ==> Code(picks, length)[i] in ALPHABET
    ensures 'I' !in Code(picks, length) && 'O' !in Code(picks, length)
    ensures '0' !in Code(picks, length) && '1' !in Code(picks, length)
  {
    var c := Code(picks, length);
    forall i | 0 <= i < length ensures c[i] in ALPHABET {
      assert c[i] == ALPHABET[picks[i]];
    }
    NoLookAlikes();
  }

  /** Different draws give different codes: each code names its draws. */
  lemma CodeDeterminesPicks(p1: seq<nat>, p2: seq<nat>, length: nat)
    requires |p1| >= length && forall i :: 0 <= i < |p1| ==> p1[i] < |ALPHABET|
    requires |p2| >= length && forall i :: 0 <= i < |p2| ==> p2[i] < |ALPHABET|
    requires Code(p1, length) == Code(p2, length)
    ensures p1[..length] == p2[..length]
  {
    AlphabetDistinct();
    forall i | 0 <= i < length ensures p1[i] == p2[i] {
      assert ALPHABET[p1[i]] == Code(p1, length)[i] == ALPHABET[p2[i]];
    }
  }

  /** `generateCode(length)`: the loop appending one drawn character at a time.
      `Math.floor(Math.random() * 32)` is the supplied draw `picks[i]`. */
  method GenerateCode(picks: seq<nat>, length: nat) returns (code: string)
    requires |picks| >= length && forall i :: 0 <= i < |picks| ==> picks[i] < |ALPHABET|
    ensures code == Code(picks, length)
  {
    code := "";
    var i := 0;
    while i < length
      invariant 0 <= i <= length
      invariant |code| == i
      invariant forall k :: 0 <= k < i ==> code[k] == ALPHABET[picks[k]]
    {
      code := code + [ALPHABET[picks[i]]];
      i := i + 1;
    }
  }

  /** The draws for one batch: `quantity` codes of the default length. */
  ghost predicate ValidDraws(draws: seq<seq<nat>>, quantity: nat) {
    |draws| >= quantity
    && forall k :: 0 <= k < |draws| ==>
      |draws[k]| >= DEFAULT_LENGTH && forall i :: 0 <= i < |draws[k]| ==> draws[k][i] < |ALPHABET|
  }

  /** `Array.from({ length: quantity }, () => ({ code: generateCode(), … }))`. */
  method NewCodes(draws: seq<seq<nat>>, quantity: nat, userId: string, role: Role) returns (rows: seq<NewCode>)
    requires ValidDraws(draws, quantity)
    ensures |rows| == quantity
    ensures forall k :: 0 <= k < quantity ==>
      rows[k] == NewCode(Code(draws[k], DEFAULT_LENGTH), userId, role)
  {
    rows := [];
    var k := 0;
    while k < quantity
      invariant 0 <= k <= quantity
      invariant |rows| == k
      invariant forall j :: 0 <= j < k ==> rows[j] == NewCode(Code(draws[j], DEFAULT_LENGTH), userId, role)
    {
      var code := GenerateCode(draws[k], DEFAULT_LENGTH);
      rows := rows + [NewCode(code, userId, role)];
      k := k + 1;
    }
  }

  function ProfileId(p: ClaimerProfile): string { p.id }

  /** `c.claimed_by ? claimerMap[c.claimed_by] ?? "—" : undefined`. */
  function ClaimerName(c: CodeRow, claimerMap: map<string, ClaimerProfile>): (name: Option<string>)
    ensures !Truthy(c.claimedBy) ==> name.None?
    ensures Truthy(c.claimedBy) && c.claimedBy.value !in claimerMap ==> name == Some(MISSING)
    ensures Truthy(c.claimedBy) && c.claimedBy.value in claimerMap ==>
      name == Some(claimerMap[c.claimedBy.value].fullName.GetOr(MISSING))
  {
    if !Truthy(c.claimedBy) then None
    else if c.claimedBy.value in claimerMap then Some(claimerMap[c.claimedBy.value].fullName.GetOr(MISSING))
    else Some(MISSING)
  }

  function ListAll(data: seq<CodeRow>, claimerMap: map<string, ClaimerProfile>): (r: seq<ListedCode>)
    ensures |r| == |data|
    ensures forall i :: 0 <= i < |r| ==> r[i] == ListedCode(data[i], ClaimerName(data[i], claimerMap))
  {
    seq(|data|, i requires 0 <= i < |data| => ListedCode(data[i], ClaimerName(data[i], claimerMap)))
  }

  predicate IsClaimed(c: ListedCode) { Truthy(c.row.claimedBy) }
  predicate IsAvailable(c: ListedCode) { !Truthy(c.row.claimedBy) }

  /** `available` and `claimed` split the list: every code is in exactly one,
      and exactly the claimed ones carry a claimer name. */
  lemma AvailableClaimedPartition(codes: seq<ListedCode>, claimerMap: map<string, ClaimerProfile>)
    ensures |Seqs.Filter(codes, IsAvailable)| + |Seqs.Filter(codes, IsClaimed)| == |codes|
    ensures forall c :: c in codes ==> (c in Seqs.Filter(codes, IsClaimed) <==> c !in Seqs.Filter(codes, IsAvailable))
    ensures forall c :: IsClaimed(ListedCode(c, ClaimerName(c, claimerMap))) <==> ClaimerName(c, claimerMap).Some?
  {
    Seqs.FilterPartition(codes, IsAvailable, IsClaimed);
  }

  class Manager {
    var codes: seq<ListedCode>
    var loading: bool
    var generating: bool

    constructor ()
      ensures codes == [] && loading && !generating
    {
      codes, loading, generating := [], true, false;
    }

    /** `fetchCodes()`: nothing without a user or after a failed query;
        otherwise the founder's codes, each with its claimer's name. Claimer
        profiles are looked up only when some code is claimed. */
    method FetchCodes(user: Option<string>, data: seq<CodeRow>, queryFailed: bool,
                      profiles: Option<seq<ClaimerProfile>>)
      modifies this`codes, this`loading
      ensures !loading
      ensures user.None? || queryFailed ==> codes == old(codes)
      ensures user.Some? && !queryFailed ==>
        var anyClaimed := exists i :: 0 <= i < |data| && Truthy(data[i].claimedBy);
        codes == ListAll(data, if anyClaimed then Seqs.Indexed(profiles.GetOr([]), ProfileId) else map[])
    {
      loading := true;
      if user.None? || queryFailed {
        loading := false;
        return;
      }
      var claimed := Seqs.Filter(data, (c: CodeRow) => Truthy(c.claimedBy));
      var claimerMap: map<string, ClaimerProfile> := map[];
      if |claimed| > 0 {
        assert claimed[0] in data;
        claimerMap := Seqs.IndexBy(profiles.GetOr([]), ProfileId);
      } else {
        assert forall i :: 0 <= i < |data| ==> data[i] in data;
      }
      codes := ListAll(data, claimerMap);
      loading := false;
    }

    /** `handleGenerate()`: no user inserts nothing; otherwise `quantity` new
        rows by this user with the chosen role, and a reload of the list when
        the insert succeeds. `generating` ends false. */
    method HandleGenerate(quantity: nat, role: Role, user: Option<string>, draws: seq<seq<nat>>,
                          insertFailed: bool, data: seq<CodeRow>, queryFailed: bool,
                          profiles: Option<seq<ClaimerProfile>>)
      returns (inserted: Option<seq<NewCode>>)
      requires ValidDraws(draws, quantity)
      modifies this`codes, this`loading, this`generating
      ensures !generating
      ensures user.None? ==> inserted.None? && codes == old(codes)
      ensures user.Some? ==>
        inserted.Some? && |inserted.value| == quantity
        && forall k :: 0 <= k < quantity ==>
          inserted.value[k] == NewCode(Code(draws[k], DEFAULT_LENGTH), user.value, role)
      ensures user.Some? && (insertFailed || queryFailed) ==> codes == old(codes)
      ensures user.Some? && !insertFailed && !queryFailed ==>
        var anyClaimed := exists i :: 0 <= i < |data| && Truthy(data[i].claimedBy);
        codes == ListAll(data, if anyClaimed then Seqs.Indexed(profiles.GetOr([]), ProfileId) else map[])
    {
      generating := true;
      inserted := None;
      if user.None? {
        generating := false;
        return;
      }
      var rows := NewCodes(draws, quantity, user.value, role);
      inserted := Some(rows);
      if !insertFailed {
        FetchCodes(user, data, queryFailed, profiles);
      }
      generating := false;
    }
  }
}
