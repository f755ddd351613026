/**
 * The expense service: checking the participants of a new expense and dividing its total
 * among them, and the checks on its other texts.
 */
module ExpenseShares {
  import opened Wrappers
  import opened Text
  import opened MoneyText
  import opened MoneySplit

  datatype ParticipantInput = ParticipantInput(user: string, share: Option<string>)

  datatype CreateInput = CreateInput(
    group: string, title: string, description: Option<string>, total: string, currency: string, paidBy: string,
    splitType: string, receiptURL: Option<string>, expenseDate: Option<string>,
    participants: seq<ParticipantInput>, createdBy: string)

  datatype ParticipantShare = ParticipantShare(user: string, share: int64)

  type Date = int

  datatype CreateParams = CreateParams(
    group: string, title: string, description: Option<string>, total: int64, currency: string, paidBy: string,
    splitType: string, receiptURL: Option<string>, expenseDate: Option<Date>,
    participants: seq<ParticipantShare>, createdBy: string)

  datatype ExpenseError =
    | InvalidGroupId | InvalidTitle | InvalidAmount | InvalidCurrency | InvalidPayerId | InvalidSplitType | Forbidden
    | InvalidReceiptURL | InvalidExpenseDate
    | InvalidParticipant | DuplicateParticipant | NoDebtorParticipant | InvalidManualShare | SplitMismatch
    | PayerNotMember | ParticipantNotMember | DatabaseError

  // ---------------------------------------------------------------- who takes part

  function Names(inputs: seq<ParticipantInput>): seq<string> {
    seq(|inputs|, i requires 0 <= i < |inputs| => TrimSpace(inputs[i].user))
  }

  /** The name at i is missing, or was given before. */
  predicate BadName(names: seq<string>, i: nat)
    requires i < |names|
  {
    names[i] == "" || names[i] in names[..i]
  }

  predicate FirstBadName(names: seq<string>, i: nat) {
    i < |names| && BadName(names, i) && forall j: nat :: j < i ==> !BadName(names, j)
  }

  /** Some name is missing before any is repeated. */
  predicate MissesFirst(names: seq<string>) {
    exists i: nat :: i < |names| && FirstBadName(names, i) && names[i] == ""
  }

  /** Some name is repeated before any is missing. */
  predicate RepeatsFirst(names: seq<string>) {
    exists i: nat :: i < |names| && FirstBadName(names, i) && names[i] != ""
  }

  predicate GoodNames(names: seq<string>) {
    forall i: nat :: i < |names| ==> !BadName(names, i)
  }

  predicate HasDebtor(names: seq<string>, paidBy: string) {
    exists i :: 0 <= i < |names| && names[i] != paidBy
  }

  /** Good names are given, and pairwise different. */
  lemma GoodNamesDiffer(names: seq<string>)
    requires GoodNames(names)
    ensures forall i :: 0 <= i < |names| ==> names[i] != ""
    ensures forall i, j :: 0 <= i < j < |names| ==> names[i] != names[j]
  {
    forall i: nat | i < |names| ensures names[i] != "" {
      assert !BadName(names, i);
    }
    forall i, j | 0 <= i < j < |names| ensures names[i] != names[j] {
      assert !BadName(names, j) && names[..j][i] == names[i];
    }
  }

  lemma FirstBadDecides(names: seq<string>, i: nat, paidBy: string)
    requires FirstBadName(names, i)
    ensures !GoodNames(names) && !(names == [paidBy] && paidBy != "")
    ensures forall j: nat :: FirstBadName(names, j) ==> j == i
  {
    assert BadName(names, i);
    assert [paidBy][..0] == [];
  }

  /** The loop over the participants: the first missing or repeated name decides. */
  method CheckNames(paidBy: string, inputs: seq<ParticipantInput>) returns (r: Result<seq<string>, ExpenseError>)
    ensures r.Success? <==> inputs != [] && GoodNames(Names(inputs)) && HasDebtor(Names(inputs), paidBy)
    ensures r.Success? ==> r.value == Names(inputs)
    ensures r == Failure(InvalidParticipant) <==>
            inputs == [] || MissesFirst(Names(inputs))
    ensures r == Failure(DuplicateParticipant) <==> RepeatsFirst(Names(inputs))
    ensures r == Failure(NoDebtorParticipant) <==> Names(inputs) == [paidBy] && paidBy != ""
    ensures r.Failure? ==> r.error in {InvalidParticipant, DuplicateParticipant, NoDebtorParticipant}
  {
    ghost var names := Names(inputs);
    if |inputs| == 0 {
      return Failure(InvalidParticipant);
    }
    var userIDs, seen, hasDebtor := [], {}, false;
    for i := 0 to |inputs|
      invariant userIDs == names[..i]
      invariant forall name :: name in seen <==> name in names[..i]
      invariant forall k: nat :: k < i ==> !BadName(names, k)
      invariant hasDebtor <==> exists k :: 0 <= k < i && names[k] != paidBy
    {
      var userID := TrimSpace(inputs[i].user);
      if userID == "" {
        FirstBadDecides(names, i, paidBy);
        return Failure(InvalidParticipant);
      }
      if userID in seen {
        FirstBadDecides(names, i, paidBy);
        return Failure(DuplicateParticipant);
      }
      seen := seen + {userID};
      userIDs := userIDs + [userID];
      if userID != paidBy {
        hasDebtor := true;
      }
    }
    if !hasDebtor {
      OnlyThePayer(names, paidBy);
      return Failure(NoDebtorParticipant);
    }
    return Success(userIDs);
  }

  /** Without a debtor the payer is the only participant. */
  lemma OnlyThePayer(names: seq<string>, paidBy: string)
    requires names != [] && GoodNames(names) && !HasDebtor(names, paidBy)
    ensures names == [paidBy] && paidBy != ""
  {
    GoodNamesDiffer(names);
    assert names[0] == paidBy && names[|names| - 1] == paidBy;
  }

  // ---------------------------------------------------------------- what each of them owes

  function SharesOf(participants: seq<ParticipantShare>): seq<int64> {
    seq(|participants|, i requires 0 <= i < |participants| => participants[i].share)
  }

  function UsersOf(participants: seq<ParticipantShare>): seq<string> {
    seq(|participants|, i requires 0 <= i < |participants| => participants[i].user)
  }

  /** The share is given, and is an amount of n > 0. */
  ghost predicate ShareIs(share: Option<string>, n: int64) {
    share.Some? && Denotes(share.value, n as int) && n > 0
  }

  /** `shares` are the positive amounts that the participants name. */
  ghost predicate Given(inputs: seq<ParticipantInput>, shares: seq<int64>) {
    |shares| == |inputs| && forall i :: 0 <= i < |inputs| ==> ShareIs(inputs[i].share, shares[i])
  }

  lemma GivenUnique(inputs: seq<ParticipantInput>, a: seq<int64>, b: seq<int64>)
    requires Given(inputs, a) && Given(inputs, b)
    ensures a == b
  {
    forall i | 0 <= i < |a| ensures a[i] == b[i] {
      DenotesUnique(inputs[i].share.value, a[i] as int, b[i] as int);
    }
  }

  /** The given amounts are a split of the total. */
  ghost predicate ManualSplit(total: int64, inputs: seq<ParticipantInput>, shares: seq<int64>) {
    Given(inputs, shares) && PositiveSplit(total as int, shares) && Total(shares) == total as int
  }

  ghost predicate ManualMismatch(total: int64, inputs: seq<ParticipantInput>, shares: seq<int64>) {
    && Given(inputs, shares) && PositiveSplit(total as int, shares)
    && Total(shares) <= MAX_INT64 && Total(shares) != total as int
  }

  /** A share must be given, an amount, and positive. */
  method ParseShare(share: Option<string>) returns (amount: Option<int64>)
    ensures amount.Some? ==> ShareIs(share, amount.value)
    ensures amount.None? ==> forall n: int64 :: !ShareIs(share, n)
  {
    if share.None? {
      return None;
    }
    var parsed := ParseMinor(share.value);
    if parsed.Failure? {
      return None;
    }
    forall n | Denotes(share.value, n) ensures n == parsed.value as int {
      DenotesUnique(share.value, n, parsed.value as int);
    }
    if parsed.value <= 0 {
      return None;
    }
    return Some(parsed.value);
  }

  method ManualShares(total: int64, names: seq<string>, inputs: seq<ParticipantInput>)
    returns (r: Result<seq<ParticipantShare>, ExpenseError>)
    requires |names| == |inputs|
    ensures r.Success? <==> exists shares :: ManualSplit(total, inputs, shares)
    ensures r.Success? ==> UsersOf(r.value) == names && ManualSplit(total, inputs, SharesOf(r.value))
    ensures r == Failure(ExpenseError.SplitMismatch) <==> exists shares :: ManualMismatch(total, inputs, shares)
    ensures r.Failure? ==> r.error == ExpenseError.SplitMismatch || r.error == InvalidManualShare
  {
    var participants: seq<ParticipantShare> := [];
    var shares: seq<int64> := [];
    for i := 0 to |inputs|
      invariant |participants| == i && SharesOf(participants) == shares && UsersOf(participants) == names[..i]
      invariant Given(inputs[..i], shares)
    {
      var parsed := ParseShare(inputs[i].share);
      if parsed.None? {
        assert forall other :: !Given(inputs, other);
        return Failure(InvalidManualShare);
      }
      shares := shares + [parsed.value];
      participants := participants + [ParticipantShare(names[i], parsed.value)];
    }
    assert inputs[..|inputs|] == inputs;
    forall other | Given(inputs, other) ensures other == shares {
      GivenUnique(inputs, shares, other);
    }
    var checked := ValidateManualSplit(total, shares);
    if checked.Failure? {
      assert checked.error == MoneyError.SplitMismatch <==> ManualMismatch(total, inputs, shares);
      return Failure(
        if checked.error == MoneyError.SplitMismatch then ExpenseError.SplitMismatch else InvalidManualShare);
    }
    assert ManualSplit(total, inputs, shares);
    return Success(participants);
  }

  method EqualShares(total: int64, names: seq<string>) returns (r: Result<seq<ParticipantShare>, ExpenseError>)
    requires |names| <= MAX_INT64
    ensures r.Success? <==> 0 < |names| <= total as int
    ensures r.Success? ==> UsersOf(r.value) == names && EvenSplit(total as int, |names|, SharesOf(r.value))
    ensures r.Failure? ==> r.error == InvalidParticipant
  {
    var split := SplitEqual(total, |names| as int64);
    if split.Failure? {
      return Failure(InvalidParticipant);
    }
    var participants: seq<ParticipantShare> := [];
    for i := 0 to |names|
      invariant |participants| == i
      invariant forall k :: 0 <= k < i ==> participants[k] == ParticipantShare(names[k], split.value[k])
    {
      participants := participants + [ParticipantShare(names[i], split.value[i])];
    }
    assert SharesOf(participants) == split.value;
    return Success(participants);
  }

  // ---------------------------------------------------------------- both together

  const EQUAL := "equal"
  const MANUAL := "manual"

  predicate NamesOk(paidBy: string, inputs: seq<ParticipantInput>) {
    inputs != [] && GoodNames(Names(inputs)) && HasDebtor(Names(inputs), paidBy)
  }

  /** The total can be divided among these participants. */
  ghost predicate Divisible(total: int64, paidBy: string, splitType: string, inputs: seq<ParticipantInput>) {
    && NamesOk(paidBy, inputs)
    && if splitType == EQUAL then |inputs| <= total as int
       else splitType == MANUAL && exists shares :: ManualSplit(total, inputs, shares)
  }

  /** Each participant asks for a positive amount: these. */
  ghost predicate Asked(inputs: seq<ParticipantInput>, shares: seq<int64>) {
    && |shares| == |inputs|
    && forall i :: 0 <= i < |inputs| ==>
         inputs[i].share.Some? && shares[i] > 0 && Denotes(inputs[i].share.value, shares[i] as int)
  }

  /** When the total can be divided, on the input itself. */
  lemma DivisibleMeans(total: int64, paidBy: string, splitType: string, inputs: seq<ParticipantInput>)
    ensures Divisible(total, paidBy, splitType, inputs) <==>
            && (forall i :: 0 <= i < |inputs| ==> TrimSpace(inputs[i].user) != "")
            && (forall i, j :: 0 <= i < j < |inputs| ==> TrimSpace(inputs[i].user) != TrimSpace(inputs[j].user))
            && (exists i :: 0 <= i < |inputs| && TrimSpace(inputs[i].user) != paidBy)
            && ((splitType == "equal" && |inputs| <= total as int)
                || (splitType == "manual" && exists shares :: Asked(inputs, shares) && Total(shares) == total as int))
  {
    NamesMean(paidBy, inputs);
    if inputs != [] {
      ManualMeans(total, inputs);
    }
  }

  lemma ManualMeans(total: int64, inputs: seq<ParticipantInput>)
    requires inputs != []
    ensures (exists shares :: ManualSplit(total, inputs, shares)) <==>
            exists shares :: Asked(inputs, shares) && Total(shares) == total as int
  {
    forall shares ensures ManualSplit(total, inputs, shares) <==>
                          Asked(inputs, shares) && Total(shares) == total as int {
      if Asked(inputs, shares) {
        TotalAtLeast(shares);
        assert Given(inputs, shares);
      }
    }
  }

  lemma NamesMean(paidBy: string, inputs: seq<ParticipantInput>)
    ensures NamesOk(paidBy, inputs) <==>
            && (forall i :: 0 <= i < |inputs| ==> TrimSpace(inputs[i].user) != "")
            && (forall i, j :: 0 <= i < j < |inputs| ==> TrimSpace(inputs[i].user) != TrimSpace(inputs[j].user))
            && (exists i :: 0 <= i < |inputs| && TrimSpace(inputs[i].user) != paidBy)
  {
    var names := Names(inputs);
    assert forall i :: 0 <= i < |names| ==> names[i] == TrimSpace(inputs[i].user);
    if GoodNames(names) {
      GoodNamesDiffer(names);
    }
  }

  /** `participants` take the whole total, evenly or as they said. */
  ghost predicate Divided(total: int64, paidBy: string, splitType: string, inputs: seq<ParticipantInput>,
                          participants: seq<ParticipantShare>) {
    && NamesOk(paidBy, inputs) && UsersOf(participants) == Names(inputs)
    && if splitType == EQUAL then EvenSplit(total as int, |inputs|, SharesOf(participants))
       else splitType == MANUAL && ManualSplit(total, inputs, SharesOf(participants))
  }

  /** Every division, even or manual, is a positive split of exactly the total. */
  lemma DividedAddsUp(total: int64, paidBy: string, splitType: string, inputs: seq<ParticipantInput>,
                      participants: seq<ParticipantShare>)
    requires Divided(total, paidBy, splitType, inputs, participants)
    ensures Total(SharesOf(participants)) == total as int && |participants| == |inputs|
    ensures forall i :: 0 <= i < |participants| ==> participants[i].user == TrimSpace(inputs[i].user) != ""
    ensures forall i :: 0 <= i < |participants| ==> participants[i].share > 0
    ensures forall i, j :: 0 <= i < j < |participants| ==> participants[i].user != participants[j].user
    ensures exists i :: 0 <= i < |participants| && participants[i].user != paidBy
  {
    GoodNamesDiffer(Names(inputs));
    assert |participants| == |inputs| by {
      assert |UsersOf(participants)| == |Names(inputs)|;
    }
    forall i | 0 <= i < |participants|
      ensures participants[i].user == Names(inputs)[i] && participants[i].share == SharesOf(participants)[i] {
      assert UsersOf(participants)[i] == Names(inputs)[i];
    }
    var d :| 0 <= d < |inputs| && Names(inputs)[d] != paidBy;
    assert participants[d].user != paidBy;
  }

  /** The switch on the split type. */
  method Divide(total: int64, paidBy: string, splitType: string, inputs: seq<ParticipantInput>)
    returns (r: Result<seq<ParticipantShare>, ExpenseError>)
    requires |inputs| <= MAX_INT64 && NamesOk(paidBy, inputs)
    ensures r.Success? <==> Divisible(total, paidBy, splitType, inputs)
    ensures r.Success? ==> Divided(total, paidBy, splitType, inputs, r.value)
    ensures r.Failure? && splitType == EQUAL ==> r.error == InvalidParticipant
    ensures r.Failure? && splitType == MANUAL ==>
              r.error == if exists shares :: ManualMismatch(total, inputs, shares)
                         then ExpenseError.SplitMismatch else InvalidManualShare
    ensures r.Failure? && splitType != EQUAL && splitType != MANUAL ==> r.error == InvalidSplitType
  {
    if splitType == EQUAL {
      r := EqualShares(total, Names(inputs));
    } else if splitType == MANUAL {
      r := ManualShares(total, Names(inputs), inputs);
    } else {
      r := Failure(InvalidSplitType);
    }
  }

  lemma FirstBadExists(names: seq<string>, i: nat)
    requires i < |names| && BadName(names, i)
    ensures exists j: nat :: FirstBadName(names, j)
  {
    var j := 0;
    while !BadName(names, j)
      invariant j <= i && forall k: nat :: k < j ==> !BadName(names, k)
      decreases i - j
    {
      j := j + 1;
    }
    assert FirstBadName(names, j);
  }

  /** What is wrong with the participants, if anything is. */
  ghost function ParticipantError(total: int64, paidBy: string, splitType: string,
                                  inputs: seq<ParticipantInput>): Option<ExpenseError> {
    if inputs == [] || MissesFirst(Names(inputs)) then Some(InvalidParticipant)
    else if RepeatsFirst(Names(inputs)) then Some(DuplicateParticipant)
    else if !HasDebtor(Names(inputs), paidBy) then Some(NoDebtorParticipant)
    else if splitType == EQUAL then if total as int < |inputs| then Some(InvalidParticipant) else None
    else if splitType != MANUAL then Some(InvalidSplitType)
    else if exists shares :: ManualSplit(total, inputs, shares) then None
    else if exists shares :: ManualMismatch(total, inputs, shares) then Some(ExpenseError.SplitMismatch)
    else Some(InvalidManualShare)
  }

  lemma GoodOrBad(names: seq<string>)
    ensures GoodNames(names) <==> !MissesFirst(names) && !RepeatsFirst(names)
  {
    if i: nat :| i < |names| && BadName(names, i) {
      FirstBadExists(names, i);
    }
  }

  /** There is nothing wrong with the participants exactly when the total can be divided. */
  lemma DivisibleIff(total: int64, paidBy: string, splitType: string, inputs: seq<ParticipantInput>)
    ensures ParticipantError(total, paidBy, splitType, inputs) == None <==> Divisible(total, paidBy, splitType, inputs)
  {
    GoodOrBad(Names(inputs));
  }

  lemma MismatchIsNoSplit(total: int64, inputs: seq<ParticipantInput>)
    ensures (exists shares :: ManualMismatch(total, inputs, shares)) ==>
            !(exists shares :: ManualSplit(total, inputs, shares))
  {
    forall a, b | ManualSplit(total, inputs, a) && ManualMismatch(total, inputs, b) ensures false {
      GivenUnique(inputs, a, b);
    }
  }

  method BuildParticipantShares(total: int64, paidBy: string, splitType: string, inputs: seq<ParticipantInput>)
    returns (r: Result<seq<ParticipantShare>, ExpenseError>)
    requires |inputs| <= MAX_INT64
    ensures r.Success? <==> Divisible(total, paidBy, splitType, inputs)
    ensures r.Success? ==> Divided(total, paidBy, splitType, inputs, r.value)
    ensures r.Failure? ==> Some(r.error) == ParticipantError(total, paidBy, splitType, inputs)
    ensures r == Failure(DuplicateParticipant) <==> RepeatsFirst(Names(inputs))
    ensures r == Failure(NoDebtorParticipant) <==> Names(inputs) == [paidBy] && paidBy != ""
    ensures r == Failure(InvalidSplitType) <==> NamesOk(paidBy, inputs) && splitType != EQUAL && splitType != MANUAL
    ensures r == Failure(InvalidParticipant) <==>
            || inputs == [] || MissesFirst(Names(inputs))
            || (NamesOk(paidBy, inputs) && splitType == EQUAL && total as int < |inputs|)
    ensures r == Failure(ExpenseError.SplitMismatch) <==>
            NamesOk(paidBy, inputs) && splitType == MANUAL && (exists shares :: ManualMismatch(total, inputs, shares))
    ensures r == Failure(InvalidManualShare) <==>
            && NamesOk(paidBy, inputs) && splitType == MANUAL
            && !(exists shares :: ManualSplit(total, inputs, shares))
            && !(exists shares :: ManualMismatch(total, inputs, shares))
  {
    GoodOrBad(Names(inputs));
    var names := CheckNames(paidBy, inputs);
    if names.Failure? {
      return Failure(names.error);
    }
    r := Divide(total, paidBy, splitType, inputs);
    MismatchIsNoSplit(total, inputs);
  }

  // ---------------------------------------------------------------- the other texts

  /** Bytes of a character in UTF-8. */
  function Utf8Length(c: char): (n: nat)
    ensures 1 <= n <= 4
  {
    if c as int < 0x80 then 1 else if c as int < 0x800 then 2 else if c as int < 0x1_0000 then 3 else 4
  }

  /** len in Go counts bytes. */
  function ByteLength(s: string): nat {
    if s == "" then 0 else Utf8Length(s[0]) + ByteLength(s[1..])
  }

  predicate TitleOk(title: string) { 1 <= ByteLength(TrimSpace(title)) <= 160 }

  lemma {:induction false} CharactersWithinBytes(s: string)
    ensures |s| <= ByteLength(s) && (ByteLength(s) >= 1 ==> |s| >= 1)
  {
    if s == "" {
    } else {
      CharactersWithinBytes(s[1..]);
    }
  }

  /** An accepted title meets the CHECK on its column, which counts characters. */
  lemma TitleFitsColumn(title: string)
    requires TitleOk(title)
    ensures 1 <= |TrimSpace(title)| <= 160
  {
    CharactersWithinBytes(TrimSpace(title));
  }

  /** Only ASCII letters have T, H or B as their upper case, so no other ones need be mapped. */
  function ToUpper(s: string): string {
    seq(|s|, i requires 0 <= i < |s| => if 'a' <= s[i] <= 'z' then s[i] - 'a' + 'A' else s[i])
  }

  const THB := "THB"

  predicate CurrencyOk(currency: string) {
    TrimSpace(currency) == "" || ToUpper(TrimSpace(currency)) == THB
  }

  function Normalized(value: Option<string>): Option<string> {
    if value.None? || TrimSpace(value.value) == "" then None else Some(TrimSpace(value.value))
  }

  datatype Uri = Uri(scheme: string, host: string)

  /** How request URIs and dates are read. */
  datatype Formats = Formats(uri: string -> Option<Uri>, date: string -> Option<Date>)

  /** No receipt, or an absolute http or https URL with a host. */
  predicate ReceiptOk(value: Option<string>, formats: Formats) {
    Normalized(value).Some? ==>
      var uri := formats.uri(Normalized(value).value);
      uri.Some? && uri.value.scheme in {"http", "https"} && uri.value.host != ""
  }

  predicate DateOk(value: Option<string>, formats: Formats) {
    Normalized(value).Some? ==> formats.date(Normalized(value).value).Some?
  }

  function DateOf(value: Option<string>, formats: Formats): Option<Date> {
    if Normalized(value).None? then None else formats.date(Normalized(value).value)
  }

  method NormalizeReceiptURL(value: Option<string>, formats: Formats) returns (r: Result<Option<string>, ExpenseError>)
    ensures r == if ReceiptOk(value, formats) then Success(Normalized(value)) else Failure(InvalidReceiptURL)
    ensures r == Success(None) <==> value == None || TrimSpace(value.value) == ""
    ensures r.Success? && r.value.Some? ==>
              && value.Some? && r.value.value == TrimSpace(value.value)
              && var uri := formats.uri(r.value.value);
                 uri.Some? && (uri.value.scheme == "http" || uri.value.scheme == "https") && uri.value.host != ""
    ensures r.Failure? ==>
              && value.Some?
              && var uri := formats.uri(TrimSpace(value.value));
                 uri.Some? ==> uri.value.scheme !in {"http", "https"} || uri.value.host == ""
  {
    var trimmed := Normalized(value);
    if trimmed.None? {
      return Success(None);
    }
    var parsed := formats.uri(trimmed.value);
    if parsed.None? || parsed.value.scheme == "" || parsed.value.host == "" {
      return Failure(InvalidReceiptURL);
    }
    if parsed.value.scheme != "http" && parsed.value.scheme != "https" {
      return Failure(InvalidReceiptURL);
    }
    return Success(trimmed);
  }

  method NormalizeExpenseDate(value: Option<string>, formats: Formats) returns (r: Result<Option<Date>, ExpenseError>)
    ensures r == if DateOk(value, formats) then Success(DateOf(value, formats)) else Failure(InvalidExpenseDate)
    ensures r == Success(None) <==> value == None || TrimSpace(value.value) == ""
    ensures r.Success? && r.value.Some? ==> value.Some? && formats.date(TrimSpace(value.value)) == r.value
    ensures r.Failure? ==> value.Some? && formats.date(TrimSpace(value.value)) == None
  {
    var trimmed := Normalized(value);
    if trimmed.None? {
      return Success(None);
    }
    var parsed := formats.date(trimmed.value);
    if parsed.None? {
      return Failure(InvalidExpenseDate);
    }
    return Success(parsed);
  }

  // ---------------------------------------------------------------- the whole input

  ghost predicate PositiveAmount(text: string) {
    exists n :: Denotes(text, n) && 0 < n <= MAX_INT64
  }

  /** The amount a text denotes, if it is positive and fits. */
  ghost function AmountOf(text: string): (n: int64)
    requires PositiveAmount(text)
    ensures Denotes(text, n as int) && n > 0
  {
    var n :| Denotes(text, n) && 0 < n <= MAX_INT64;
    n as int64
  }

  /** The first thing that is wrong with the input, if anything is. */
  ghost function InputError(input: CreateInput, formats: Formats): Option<ExpenseError> {
    if TrimSpace(input.group) == "" then Some(InvalidGroupId)
    else if !TitleOk(input.title) then Some(InvalidTitle)
    else if !PositiveAmount(input.total) then Some(ExpenseError.InvalidAmount)
    else if !CurrencyOk(input.currency) then Some(InvalidCurrency)
    else if TrimSpace(input.paidBy) == "" then Some(InvalidPayerId)
    else if TrimSpace(input.splitType) != EQUAL && TrimSpace(input.splitType) != MANUAL then Some(InvalidSplitType)
    else if TrimSpace(input.createdBy) == "" then Some(Forbidden)
    else if !ReceiptOk(input.receiptURL, formats) then Some(InvalidReceiptURL)
    else if !DateOk(input.expenseDate, formats) then Some(InvalidExpenseDate)
    else ParticipantError(AmountOf(input.total), TrimSpace(input.paidBy), TrimSpace(input.splitType),
                          input.participants)
  }

  /** The params keep the trimmed texts, the parsed total, and a division of it. */
  ghost predicate Validated(input: CreateInput, formats: Formats, params: CreateParams) {
    && params.group == TrimSpace(input.group) != "" && params.paidBy == TrimSpace(input.paidBy) != ""
    && params.createdBy == TrimSpace(input.createdBy) != "" && params.splitType == TrimSpace(input.splitType)
    && params.title == TrimSpace(input.title) && TitleOk(input.title)
    && params.currency == THB && CurrencyOk(input.currency)
    && params.description == Normalized(input.description)
    && params.receiptURL == Normalized(input.receiptURL) && ReceiptOk(input.receiptURL, formats)
    && params.expenseDate == DateOf(input.expenseDate, formats) && DateOk(input.expenseDate, formats)
    && Denotes(input.total, params.total as int) && params.total > 0
    && Divided(params.total, params.paidBy, params.splitType, input.participants, params.participants)
  }

  /** Complaints about the texts around the participants are no complaints about the participants. */
  lemma HeaderIsNoParticipantError(total: int64, paidBy: string, splitType: string, inputs: seq<ParticipantInput>)
    ensures var e := ParticipantError(total, paidBy, splitType, inputs);
            e != Some(InvalidSplitType) || splitType !in {EQUAL, MANUAL}
    ensures ParticipantError(total, paidBy, splitType, inputs) !in {
              Some(InvalidGroupId), Some(InvalidTitle), Some(ExpenseError.InvalidAmount), Some(InvalidCurrency),
              Some(InvalidPayerId), Some(Forbidden), Some(InvalidReceiptURL), Some(InvalidExpenseDate)}
  {
  }

  /** What is wrong first, group, title and total, on the input. */
  lemma FirstHeaderErrors(input: CreateInput, formats: Formats)
    ensures InputError(input, formats) == Some(InvalidGroupId) <==> TrimSpace(input.group) == ""
    ensures InputError(input, formats) == Some(InvalidTitle) <==>
            TrimSpace(input.group) != "" && !(1 <= ByteLength(TrimSpace(input.title)) <= 160)
    ensures InputError(input, formats) == Some(ExpenseError.InvalidAmount) <==>
            && TrimSpace(input.group) != "" && TitleOk(input.title)
            && forall n :: Denotes(input.total, n) ==> !(0 < n <= MAX_INT64)
  {
    if PositiveAmount(input.total) {
      HeaderIsNoParticipantError(AmountOf(input.total), TrimSpace(input.paidBy), TrimSpace(input.splitType),
                                 input.participants);
    }
  }

  /** Then currency, payer and split type. */
  lemma MiddleHeaderErrors(input: CreateInput, formats: Formats)
    requires TrimSpace(input.group) != "" && TitleOk(input.title) && PositiveAmount(input.total)
    ensures InputError(input, formats) == Some(InvalidCurrency) <==>
            TrimSpace(input.currency) != "" && ToUpper(TrimSpace(input.currency)) != "THB"
    ensures InputError(input, formats) == Some(InvalidPayerId) <==>
            CurrencyOk(input.currency) && TrimSpace(input.paidBy) == ""
    ensures InputError(input, formats) == Some(InvalidSplitType) <==>
            && CurrencyOk(input.currency) && TrimSpace(input.paidBy) != ""
            && TrimSpace(input.splitType) !in {"equal", "manual"}
  {
    HeaderIsNoParticipantError(AmountOf(input.total), TrimSpace(input.paidBy), TrimSpace(input.splitType),
                               input.participants);
  }

  /** Then the caller, the receipt and the date; after that the participants decide. */
  lemma LastHeaderErrors(input: CreateInput, formats: Formats)
    requires TrimSpace(input.group) != "" && TitleOk(input.title) && PositiveAmount(input.total)
    requires CurrencyOk(input.currency) && TrimSpace(input.paidBy) != ""
    requires TrimSpace(input.splitType) in {"equal", "manual"}
    ensures InputError(input, formats) == Some(Forbidden) <==> TrimSpace(input.createdBy) == ""
    ensures InputError(input, formats) == Some(InvalidReceiptURL) <==>
            TrimSpace(input.createdBy) != "" && !ReceiptOk(input.receiptURL, formats)
    ensures InputError(input, formats) == Some(InvalidExpenseDate) <==>
            && TrimSpace(input.createdBy) != "" && ReceiptOk(input.receiptURL, formats)
            && !DateOk(input.expenseDate, formats)
    ensures TrimSpace(input.createdBy) != "" && ReceiptOk(input.receiptURL, formats)
            && DateOk(input.expenseDate, formats) ==>
              InputError(input, formats) == ParticipantError(
                AmountOf(input.total), TrimSpace(input.paidBy), TrimSpace(input.splitType), input.participants)
  {
    HeaderIsNoParticipantError(AmountOf(input.total), TrimSpace(input.paidBy), TrimSpace(input.splitType),
                               input.participants);
  }

  /** Names and shares put together. */
  lemma Paired(names: seq<string>, shares: seq<int64>) returns (participants: seq<ParticipantShare>)
    requires |names| == |shares|
    ensures UsersOf(participants) == names && SharesOf(participants) == shares
  {
    participants := seq(|names|, i requires 0 <= i < |names| => ParticipantShare(names[i], shares[i]));
  }

  lemma DividedExists(total: int64, paidBy: string, splitType: string, inputs: seq<ParticipantInput>)
    requires Divisible(total, paidBy, splitType, inputs)
    ensures exists participants :: Divided(total, paidBy, splitType, inputs, participants)
  {
    var shares;
    if splitType == EQUAL {
      EvenSplitExists(total as int, |inputs|);
      shares :| EvenSplit(total as int, |inputs|, shares);
    } else {
      shares :| ManualSplit(total, inputs, shares);
    }
    var participants := Paired(Names(inputs), shares);
    assert Divided(total, paidBy, splitType, inputs, participants);
  }

  /** There is one division of a total: even or as given, it is determined. */
  lemma DividedUnique(total: int64, paidBy: string, splitType: string, inputs: seq<ParticipantInput>,
                      a: seq<ParticipantShare>, b: seq<ParticipantShare>)
    requires Divided(total, paidBy, splitType, inputs, a) && Divided(total, paidBy, splitType, inputs, b)
    ensures a == b
  {
    if splitType == EQUAL {
      EvenSplitUnique(total as int, |inputs|, SharesOf(a), SharesOf(b));
    } else {
      GivenUnique(inputs, SharesOf(a), SharesOf(b));
    }
    assert |UsersOf(a)| == |UsersOf(b)|;
    forall i | 0 <= i < |a| ensures a[i] == b[i] {
      assert UsersOf(a)[i] == UsersOf(b)[i] && SharesOf(a)[i] == SharesOf(b)[i];
    }
  }

  /** An input is validated as at most one set of params. */
  lemma ValidatedUnique(input: CreateInput, formats: Formats, a: CreateParams, b: CreateParams)
    requires Validated(input, formats, a) && Validated(input, formats, b)
    ensures a == b
  {
    DenotesUnique(input.total, a.total as int, b.total as int);
    DividedUnique(a.total, a.paidBy, a.splitType, input.participants, a.participants, b.participants);
  }

  lemma DividedIsDivisible(total: int64, paidBy: string, splitType: string, inputs: seq<ParticipantInput>,
                           participants: seq<ParticipantShare>)
    requires Divided(total, paidBy, splitType, inputs, participants)
    ensures Divisible(total, paidBy, splitType, inputs)
  {
    if splitType == EQUAL {
      EvenSplitExists(total as int, |inputs|);
      assert EvenSplit(total as int, |inputs|, SharesOf(participants));
    }
  }

  /** Nothing is wrong with an input exactly when it can be turned into params. */
  lemma InputOkIff(input: CreateInput, formats: Formats)
    ensures InputError(input, formats) == None <==> exists params :: Validated(input, formats, params)
  {
    if InputError(input, formats) == None {
      var total, paidBy, splitType := AmountOf(input.total), TrimSpace(input.paidBy), TrimSpace(input.splitType);
      DivisibleIff(total, paidBy, splitType, input.participants);
      DividedExists(total, paidBy, splitType, input.participants);
      var participants :| Divided(total, paidBy, splitType, input.participants, participants);
      assert Validated(input, formats, CreateParams(
        TrimSpace(input.group), TrimSpace(input.title), Normalized(input.description), total, THB, paidBy, splitType,
        Normalized(input.receiptURL), DateOf(input.expenseDate, formats), participants, TrimSpace(input.createdBy)));
    }
    forall params | Validated(input, formats, params) ensures InputError(input, formats) == None {
      ValidatedIsOk(input, formats, params);
    }
  }

  lemma ValidatedIsOk(input: CreateInput, formats: Formats, params: CreateParams)
    requires Validated(input, formats, params)
    ensures InputError(input, formats) == None
  {
    assert PositiveAmount(input.total);
    DenotesUnique(input.total, params.total as int, AmountOf(input.total) as int);
    DividedIsDivisible(params.total, params.paidBy, params.splitType, input.participants, params.participants);
    DivisibleIff(params.total, params.paidBy, params.splitType, input.participants);
  }

  method ValidateCreateInput(input: CreateInput, formats: Formats) returns (r: Result<CreateParams, ExpenseError>)
    requires |input.participants| <= MAX_INT64
    ensures r.Success? ==> InputError(input, formats) == None && Validated(input, formats, r.value)
    ensures r.Failure? ==> InputError(input, formats) == Some(r.error)
  {
    var group := TrimSpace(input.group);
    if group == "" {
      return Failure(InvalidGroupId);
    }
    var title := TrimSpace(input.title);
    if ByteLength(title) < 1 || ByteLength(title) > 160 {
      return Failure(InvalidTitle);
    }
    var total := ParseMinor(input.total);
    if total.Failure? {
      return Failure(ExpenseError.InvalidAmount);
    }
    forall n | Denotes(input.total, n) ensures n == total.value as int {
      DenotesUnique(input.total, n, total.value as int);
    }
    if total.value <= 0 {
      return Failure(ExpenseError.InvalidAmount);
    }
    var currency := ToUpper(TrimSpace(input.currency));
    if currency == "" {
      currency := THB;
    }
    if currency != THB {
      return Failure(InvalidCurrency);
    }
    var paidBy := TrimSpace(input.paidBy);
    if paidBy == "" {
      return Failure(InvalidPayerId);
    }
    var splitType := TrimSpace(input.splitType);
    if splitType != EQUAL && splitType != MANUAL {
      return Failure(InvalidSplitType);
    }
    var createdBy := TrimSpace(input.createdBy);
    if createdBy == "" {
      return Failure(Forbidden);
    }
    var receiptURL := NormalizeReceiptURL(input.receiptURL, formats);
    if receiptURL.Failure? {
      return Failure(receiptURL.error);
    }
    var expenseDate := NormalizeExpenseDate(input.expenseDate, formats);
    if expenseDate.Failure? {
      return Failure(expenseDate.error);
    }
    assert AmountOf(input.total) == total.value;
    DivisibleIff(total.value, paidBy, splitType, input.participants);
    var participants := BuildParticipantShares(total.value, paidBy, splitType, input.participants);
    if participants.Failure? {
      return Failure(participants.error);
    }
    return Success(CreateParams(group, title, Normalized(input.description), total.value, currency, paidBy,
                                splitType, receiptURL.value, expenseDate.value, participants.value, createdBy));
  }
}
