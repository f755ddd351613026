/**
 * Creating an expense from its input to the committed rows: texts become ids, the division
 * of the total becomes participants and debts, and the table constraints catch what the
 * checks on texts cannot see.
 */
module ExpenseCreation {
  import opened Wrappers
  import opened Text
  import MoneyText
  import MoneySplit
  import opened ExpenseShares
  import opened Ledger
  import LedgerAnswers
  import LedgerInvariants
  import opened LedgerCreate
  import Store

  /** Reading a UUID: several texts may stand for one id, no text for two. */
  type Parser = string -> Option<Id>

  function ToExpenseError(e: Error): ExpenseError {
    if e == Error.Forbidden then ExpenseError.Forbidden
    else if e == Error.PayerNotMember then ExpenseError.PayerNotMember
    else if e == Error.ParticipantNotMember then ExpenseError.ParticipantNotMember
    else DatabaseError
  }

  // ---------------------------------------------------------------- from params to rows

  predicate AllParse(params: CreateParams, parse: Parser) {
    forall i :: 0 <= i < |params.participants| ==> parse(params.participants[i].user).Some?
  }

  predicate Parses(params: CreateParams, parse: Parser) {
    parse(params.group).Some? && parse(params.createdBy).Some? && parse(params.paidBy).Some? && AllParse(params, parse)
  }

  function EntriesOf(params: CreateParams, parse: Parser): seq<Entry>
    requires AllParse(params, parse)
  {
    seq(|params.participants|, i requires 0 <= i < |params.participants| =>
      var p := params.participants[i];
      Entry(parse(p.user).value, p.share as int, p.user == params.paidBy))
  }

  /** What is answered for a committed expense: its row, and those of its participants and debts. */
  datatype CreatedExpense = CreatedExpense(
    id: Id, expense: Expense, participants: seq<(Id, int)>, debts: seq<(Id, Debt)>)

  function AnswerFor(params: CreateParams, parse: Parser, id: Id, ids: seq<Id>, now: Time): CreatedExpense
    requires Parses(params, parse) && |params.participants| <= |ids|
  {
    var entries, payer := EntriesOf(params, parse), parse(params.paidBy).value;
    CreatedExpense(id, Expense(parse(params.group).value, params.total as int, payer),
                   ParticipantRows(entries), DebtRows(id, payer, entries, ids, now))
  }

  function CreateRows(t: Tables, params: CreateParams, parse: Parser, id: Id, ids: seq<Id>, now: Time)
    : (Tables, Result<CreatedExpense, ExpenseError>)
    requires |params.participants| <= |ids|
  {
    if parse(params.group).None? then (t, Failure(InvalidGroupId))
    else if parse(params.createdBy).None? then (t, Failure(ExpenseError.Forbidden))
    else if parse(params.paidBy).None? then (t, Failure(InvalidPayerId))
    else if !AllParse(params, parse) then (t, Failure(InvalidParticipant))
    else
      var (t', outcome) := CreateExpense(
        t, id, parse(params.group).value, parse(params.createdBy).value, parse(params.paidBy).value,
        params.total as int, EntriesOf(params, parse), ids, now);
      (t', if outcome == Ok then Success(AnswerFor(params, parse, id, ids, now))
           else Failure(ToExpenseError(outcome.error)))
  }

  /** The repository's Create: parse every id, then one transaction. */
  method Create(store: Store.Repository, params: CreateParams, parse: Parser, id: Id, ids: seq<Id>, now: Time)
    returns (r: Result<CreatedExpense, ExpenseError>)
    requires |params.participants| <= |ids|
    modifies store
    ensures (store.State(), r) == CreateRows(old(store.State()), params, parse, id, ids, now)
  {
    var group := parse(params.group);
    if group.None? {
      return Failure(InvalidGroupId);
    }
    var createdBy := parse(params.createdBy);
    if createdBy.None? {
      return Failure(ExpenseError.Forbidden);
    }
    var paidBy := parse(params.paidBy);
    if paidBy.None? {
      return Failure(InvalidPayerId);
    }
    var participantIDs: map<string, Id> := map[];
    for i := 0 to |params.participants|
      invariant forall k :: 0 <= k < i ==>
                  var user := params.participants[k].user;
                  user in participantIDs && parse(user).Some?
      invariant forall user :: user in participantIDs ==> parse(user) == Some(participantIDs[user])
    {
      var userID := parse(params.participants[i].user);
      if userID.None? {
        return Failure(InvalidParticipant);
      }
      participantIDs := participantIDs[params.participants[i].user := userID.value];
    }
    var given := params.participants;
    var entries := seq(|given|, i requires 0 <= i < |given| && given[i].user in participantIDs =>
      Entry(participantIDs[given[i].user], given[i].share as int, given[i].user == params.paidBy));
    assert entries == EntriesOf(params, parse);
    var outcome, participants, debts :=
      store.CreateExpense(id, group.value, createdBy.value, paidBy.value, params.total as int, entries, ids, now);
    if outcome != Ok {
      return Failure(ToExpenseError(outcome.error));
    }
    return Success(CreatedExpense(id, Expense(group.value, params.total as int, paidBy.value), participants, debts));
  }

  lemma FailureKeepsTables(t: Tables, params: CreateParams, parse: Parser, id: Id, ids: seq<Id>, now: Time)
    requires |params.participants| <= |ids| && CreateRows(t, params, parse, id, ids, now).1.Failure?
    ensures CreateRows(t, params, parse, id, ids, now).0 == t
  {
  }

  // ---------------------------------------------------------------- sums

  lemma {:induction false} TotalFront(shares: seq<MoneyText.int64>)
    requires shares != []
    ensures MoneySplit.Total(shares) == shares[0] as int + MoneySplit.Total(shares[1..])
  {
    var n := |shares| - 1;
    if n == 0 {
    } else {
      TotalFront(shares[..n]);
      assert shares[..n][1..] == shares[1..][..n - 1];
    }
  }

  lemma {:induction false} EntryTotalIsTotal(entries: seq<Entry>, shares: seq<MoneyText.int64>)
    requires |entries| == |shares| && forall i :: 0 <= i < |shares| ==> entries[i].share == shares[i] as int
    ensures EntryTotal(entries) == MoneySplit.Total(shares)
  {
    if entries == [] {
    } else {
      TotalFront(shares);
      EntryTotalIsTotal(entries[1..], shares[1..]);
    }
  }

  // ---------------------------------------------------------------- end to end

  lemma EntriesAgree(input: CreateInput, formats: Formats, params: CreateParams, parse: Parser)
    requires Validated(input, formats, params) && Parses(params, parse)
    ensures var entries := EntriesOf(params, parse);
            PayerTextsAgree(entries, parse(params.paidBy).value) && EntryTotal(entries) == params.total as int
  {
    DividedAddsUp(params.total, params.paidBy, params.splitType, input.participants, params.participants);
    EntryTotalIsTotal(EntriesOf(params, parse), SharesOf(params.participants));
  }

  /**
   * Whatever the split, a committed expense is worth its total twice: the shares of the
   * participants add up to it, and so do the payer's share and the debts. There is a debt,
   * debtors are distinct, and none of them is the payer. The answer lists exactly the new
   * participants and debts.
   */
  lemma CommittedExpense(t: Tables, input: CreateInput, formats: Formats, params: CreateParams, parse: Parser, id: Id,
                         ids: seq<Id>, now: Time)
    requires LedgerInvariants.Consistent(t) && Validated(input, formats, params) && |params.participants| <= |ids|
    requires CreateRows(t, params, parse, id, ids, now).1.Success?
    ensures Parses(params, parse)
    ensures var t', payer := CreateRows(t, params, parse, id, ids, now).0, parse(params.paidBy).value;
            && MoneyText.Denotes(input.total, ShareSum(t', id))
            && ShareSum(t', id) == PayerShare(t', id, payer) + DebtSum(t', id)
            && Balanced(t', id, payer)
            && exists d :: d in t'.debts && t'.debts[d].expense == id && t'.debts[d].creditor == payer
    ensures var (t', r) := CreateRows(t, params, parse, id, ids, now);
            && r.value.id == id && t'.expenses == t.expenses[id := r.value.expense]
            && NewParticipants(t, t', id, r.value.participants) && NewDebts(t, t', r.value.debts)
  {
    var group, createdBy, payer := parse(params.group).value, parse(params.createdBy).value, parse(params.paidBy).value;
    var entries := EntriesOf(params, parse);
    EntriesAgree(input, formats, params, parse);
    CreatedBalanced(t, id, group, createdBy, payer, params.total as int, entries, ids, now);
    DividedAddsUp(params.total, params.paidBy, params.splitType, input.participants, params.participants);
    var i :| 0 <= i < |params.participants| && params.participants[i].user != params.paidBy;
    CreatedRows(t, id, group, createdBy, payer, params.total as int, entries, ids, now, i);
    assert !entries[i].samePayerText;
    CreatedAnswer(t, id, group, createdBy, payer, params.total as int, entries, ids, now);
  }

  /**
   * What the i-th participant of the input gets: the share under the id its text stands
   * for, and unless it is the payer's text a pending debt of that share to the payer.
   */
  lemma EachOwesItsShare(t: Tables, input: CreateInput, formats: Formats, params: CreateParams, parse: Parser, id: Id,
                         ids: seq<Id>, now: Time, i: nat)
    requires Validated(input, formats, params) && |params.participants| <= |ids|
    requires CreateRows(t, params, parse, id, ids, now).1.Success?
    requires i < |input.participants|
    ensures |params.participants| == |input.participants|
    ensures var (t', text) := (CreateRows(t, params, parse, id, ids, now).0, TrimSpace(input.participants[i].user));
            var share := params.participants[i].share as int;
            && parse(text).Some? && parse(TrimSpace(input.paidBy)).Some?
            && (id, parse(text).value) in t'.participants && t'.participants[(id, parse(text).value)] == share
            && (TrimSpace(input.splitType) == "manual" ==>
                 input.participants[i].share.Some? && MoneyText.Denotes(input.participants[i].share.value, share))
            && (text != TrimSpace(input.paidBy) ==>
                 && ids[i] in t'.debts
                 && t'.debts[ids[i]] ==
                    Debt(id, parse(text).value, parse(TrimSpace(input.paidBy)).value, share, share, Pending,
                         None, None, None, now, now))
  {
    DividedAddsUp(params.total, params.paidBy, params.splitType, input.participants, params.participants);
    CreatedRows(t, id, parse(params.group).value, parse(params.createdBy).value, parse(params.paidBy).value,
                params.total as int, EntriesOf(params, parse), ids, now, i);
    assert SharesOf(params.participants)[i] == params.participants[i].share;
  }

  /** No two participants, and nobody spelled unlike the payer and the payer, are one user. */
  predicate SpellingsDiffer(params: CreateParams, parse: Parser) {
    && (forall i, j :: 0 <= i < j < |params.participants| ==>
         parse(params.participants[i].user) != parse(params.participants[j].user))
    && (forall i :: 0 <= i < |params.participants| && params.participants[i].user != params.paidBy ==>
         parse(params.participants[i].user) != parse(params.paidBy))
  }

  /** The ids generated for the debts are new. */
  predicate DebtIdsAreNew(t: Tables, params: CreateParams, ids: seq<Id>)
    requires |params.participants| <= |ids|
  {
    && (forall i :: 0 <= i < |params.participants| && params.participants[i].user != params.paidBy ==>
         ids[i] !in t.debts)
    && (forall i, j :: 0 <= i < j < |params.participants|
                       && params.participants[i].user != params.paidBy
                       && params.participants[j].user != params.paidBy ==>
         ids[i] != ids[j])
  }

  predicate AllMembers(t: Tables, params: CreateParams, parse: Parser)
    requires Parses(params, parse)
  {
    var group := parse(params.group).value;
    && IsMember(t, group, parse(params.createdBy).value) && IsMember(t, group, parse(params.paidBy).value)
    && forall i :: 0 <= i < |params.participants| ==> IsMember(t, group, parse(params.participants[i].user).value)
  }

  /** Everything the database asks for: ids of members, each user once, and new ids for the rows. */
  predicate Storable(t: Tables, params: CreateParams, parse: Parser, id: Id, ids: seq<Id>) {
    && |params.participants| <= |ids| && Parses(params, parse) && AllMembers(t, params, parse)
    && SpellingsDiffer(params, parse) && id !in t.expenses && DebtIdsAreNew(t, params, ids)
  }

  /**
   * A validated expense is committed exactly when its texts are ids of group members, no
   * two spellings of one id are mixed and the generated ids are new; otherwise nothing at
   * all is written.
   */
  lemma CommitsIff(t: Tables, input: CreateInput, formats: Formats, params: CreateParams, parse: Parser, id: Id,
                   ids: seq<Id>, now: Time)
    requires LedgerInvariants.Consistent(t) && Validated(input, formats, params) && |params.participants| <= |ids|
    ensures CreateRows(t, params, parse, id, ids, now).1.Success? <==> Storable(t, params, parse, id, ids)
    ensures CreateRows(t, params, parse, id, ids, now).1.Failure? ==> CreateRows(t, params, parse, id, ids, now).0 == t
  {
    if Parses(params, parse) {
      var group, createdBy := parse(params.group).value, parse(params.createdBy).value;
      var payer := parse(params.paidBy).value;
      var entries := EntriesOf(params, parse);
      EntriesAgree(input, formats, params, parse);
      CreateCommitsIff(t, id, group, createdBy, payer, params.total as int, entries, ids, now);
      MembersAgree(t, params, parse);
      if id !in t.expenses {
        InsertableAgrees(t, input, formats, params, parse, id, ids);
      }
    }
  }

  /** Each answer to a validated expense that is not committed, in order of precedence. */
  lemma CreateErrors(t: Tables, input: CreateInput, formats: Formats, params: CreateParams, parse: Parser, id: Id,
                     ids: seq<Id>, now: Time)
    requires LedgerInvariants.Consistent(t) && Validated(input, formats, params) && |params.participants| <= |ids|
    requires CreateRows(t, params, parse, id, ids, now).1.Failure?
    ensures var e := CreateRows(t, params, parse, id, ids, now).1.error;
            if parse(params.group).None? then e == InvalidGroupId
            else if parse(params.createdBy).None? then e == ExpenseError.Forbidden
            else if parse(params.paidBy).None? then e == InvalidPayerId
            else if exists p :: p in params.participants && parse(p.user).None? then e == InvalidParticipant
            else Parses(params, parse) && StoringError(t, params, parse, e)
  {
    if Parses(params, parse) {
      EntriesAgree(input, formats, params, parse);
      LedgerAnswers.CreateAnswer(
        t, id, parse(params.group).value, parse(params.createdBy).value, parse(params.paidBy).value,
        params.total as int, EntriesOf(params, parse), ids, now);
      MembersAgree(t, params, parse);
      LedgerAnswers.EntriesInGroup(t, parse(params.group).value, EntriesOf(params, parse));
      forall p | p in params.participants ensures parse(p.user).Some? {
        var i :| 0 <= i < |params.participants| && params.participants[i] == p;
      }
    }
  }

  /** Who is missing from the group decides the error: the caller, the payer, a participant; else the tables refused. */
  predicate StoringError(t: Tables, params: CreateParams, parse: Parser, e: ExpenseError)
    requires Parses(params, parse)
  {
    var group := parse(params.group).value;
    if (group, parse(params.createdBy).value) !in t.members then e == ExpenseError.Forbidden
    else if (group, parse(params.paidBy).value) !in t.members then e == ExpenseError.PayerNotMember
    else if AllMembers(t, params, parse) then e == DatabaseError
    else e == ExpenseError.ParticipantNotMember
  }

  lemma MembersAgree(t: Tables, params: CreateParams, parse: Parser)
    requires Parses(params, parse)
    ensures var group := parse(params.group).value;
            AllMembers(t, params, parse) <==>
            && IsMember(t, group, parse(params.createdBy).value) && IsMember(t, group, parse(params.paidBy).value)
            && forall e :: e in EntriesOf(params, parse) ==> IsMember(t, group, e.user)
  {
    var entries := EntriesOf(params, parse);
    forall i | 0 <= i < |params.participants|
      ensures entries[i] in entries && entries[i].user == parse(params.participants[i].user).value {
    }
  }

  lemma InsertableAgrees(t: Tables, input: CreateInput, formats: Formats, params: CreateParams, parse: Parser, id: Id,
                         ids: seq<Id>)
    requires LedgerInvariants.Consistent(t) && Validated(input, formats, params)
    requires Parses(params, parse) && |params.participants| <= |ids|
    requires id !in t.expenses
    ensures Insertable(t, id, parse(params.paidBy).value, EntriesOf(params, parse), ids) <==>
            SpellingsDiffer(params, parse) && DebtIdsAreNew(t, params, ids)
  {
    UnusedExpense(t, id);
    DividedAddsUp(params.total, params.paidBy, params.splitType, input.participants, params.participants);
    InsertableParams(t, params, parse, id, ids);
  }

  /** Insertable, said of the params: shares and participant keys are in order already. */
  lemma InsertableParams(t: Tables, params: CreateParams, parse: Parser, id: Id, ids: seq<Id>)
    requires Parses(params, parse) && |params.participants| <= |ids|
    requires forall key :: key in t.participants ==> key.0 != id
    requires forall i :: 0 <= i < |params.participants| ==> 0 < params.participants[i].share as int <= MAX_AMOUNT
    ensures Insertable(t, id, parse(params.paidBy).value, EntriesOf(params, parse), ids) <==>
            SpellingsDiffer(params, parse) && DebtIdsAreNew(t, params, ids)
  {
    var entries := EntriesOf(params, parse);
    forall i | 0 <= i < |entries|
      ensures entries[i].share == params.participants[i].share as int
      ensures parse(params.participants[i].user) == Some(entries[i].user)
      ensures entries[i].samePayerText <==> params.participants[i].user == params.paidBy
    {
    }
  }

  // ---------------------------------------------------------------- the service

  /** The input is stored as params: tables and answer are those of the repository's step. */
  ghost predicate StoredAs(input: CreateInput, formats: Formats, params: CreateParams, parse: Parser, id: Id,
                           ids: seq<Id>, now: Time, t: Tables, t': Tables,
                           r: Result<CreatedExpense, ExpenseError>) {
    && Validated(input, formats, params) && |params.participants| <= |ids|
    && (t', r) == CreateRows(t, params, parse, id, ids, now)
  }

  /** The input can be validated as params that the database takes. */
  ghost predicate CanCreate(t: Tables, input: CreateInput, formats: Formats, parse: Parser, id: Id, ids: seq<Id>) {
    exists params :: Validated(input, formats, params) && Storable(t, params, parse, id, ids)
  }

  lemma CreatedIff(t: Tables, input: CreateInput, formats: Formats, params: CreateParams, parse: Parser, id: Id,
                   ids: seq<Id>, now: Time)
    requires LedgerInvariants.Consistent(t) && Validated(input, formats, params) && |params.participants| <= |ids|
    ensures CreateRows(t, params, parse, id, ids, now).1.Success? <==> CanCreate(t, input, formats, parse, id, ids)
  {
    CommitsIff(t, input, formats, params, parse, id, ids, now);
    forall other | Validated(input, formats, other) ensures other == params {
      ValidatedUnique(input, formats, params, other);
    }
  }

  lemma SameNumber(input: CreateInput, formats: Formats, params: CreateParams)
    requires Validated(input, formats, params)
    ensures |params.participants| == |input.participants|
  {
    assert |UsersOf(params.participants)| == |Names(input.participants)|;
  }

  /**
   * The service's Create: validate, then store. Whatever is wrong with the input is
   * answered as such, and a failure leaves every table as it was.
   */
  method CreateFromInput(store: Store.Repository, input: CreateInput, formats: Formats, parse: Parser,
                         id: Id, ids: seq<Id>, now: Time)
    returns (r: Result<CreatedExpense, ExpenseError>)
    requires |input.participants| <= |ids| && |input.participants| <= MoneyText.MAX_INT64
    modifies store
    ensures InputError(input, formats).Some? ==> r == Failure(InputError(input, formats).value)
    ensures InputError(input, formats) == None ==>
              exists params :: StoredAs(input, formats, params, parse, id, ids, now, old(store.State()),
                  store.State(), r)
    ensures LedgerInvariants.Consistent(old(store.State())) ==>
              (r.Success? <==> CanCreate(old(store.State()), input, formats, parse, id, ids))
    ensures r.Failure? ==> store.State() == old(store.State())
  {
    ghost var before := store.State();
    var params := ValidateCreateInput(input, formats);
    if params.Failure? {
      InputOkIff(input, formats);
      return Failure(params.error);
    }
    SameNumber(input, formats, params.value);
    r := Create(store, params.value, parse, id, ids, now);
    assert StoredAs(input, formats, params.value, parse, id, ids, now, before, store.State(), r);
    if r.Failure? {
      FailureKeepsTables(before, params.value, parse, id, ids, now);
    }
    if LedgerInvariants.Consistent(before) {
      CreatedIff(before, input, formats, params.value, parse, id, ids, now);
    }
  }
}
