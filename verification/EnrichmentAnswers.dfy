/** Which element of which answer a row gets, and what a row gets that is never sent to the model. */
module EnrichmentAnswers {
  import opened EnrichmentTypes
  import opened Enrichment
  import opened Options
  import opened Sequences
  import opened Strings

  /** The element at the row's place in the answer to its batch is there and truthy. */
  predicate IsAnswered(reply: Reply, place: nat) {
    match reply
    case Throws => false
    case NotAnArray => false
    case Answers(results) => place < |results| && results[place].Some?
  }

  lemma OnePlace(row: Row, reply: Reply, place: nat)
    ensures IsAnswered(reply, place) <==> AnswerTo(reply, place).Some?
    ensures IsAnswered(reply, place) ==>
      OutputFor(reply, place) == [reply.results[place].value] && ErrorFor(row, reply, place) == []
    ensures !IsAnswered(reply, place) && !reply.Throws? ==> OutputFor(reply, place) == [EMPTY_ENRICHMENT]
    ensures reply.Throws? ==> OutputFor(reply, place) == [] && ErrorFor(row, reply, place) == [RowError(row.sourceRowIndex, BatchFailed)]
    ensures reply.NotAnArray? ==> ErrorFor(row, reply, place) == [RowError(row.sourceRowIndex, InvalidFormat)]
    ensures reply.Answers? && !IsAnswered(reply, place) ==>
      ErrorFor(row, reply, place) == [RowError(row.sourceRowIndex, NoResult)]
  {
  }

  lemma PlaceOfLast(replies: nat -> Reply, size: nat, p: nat)
    requires size > 0
    ensures BatchOf(size, p) == p / size && PlaceOf(size, p) == p % size
  {
  }

  /** Row `p` is at place `p` modulo the size of batch `p` divided by the size. The outputs are, for the
      rows whose batch came back in order, the element at that place of the answer to that batch, or
      the empty enrichment where the answer is no array or has nothing there. */
  lemma {:induction false} OutputsAreAnswers(replies: nat -> Reply, size: nat, n: nat)
    requires size > 0
    ensures var kept, outputs := Select(Survives(replies, size), n), Gathered(replies, size, n);
      && |outputs| == |kept|
      && forall k :: 0 <= k < |kept| ==>
           var p := kept[k];
           outputs[k] == if IsAnswered(replies(p / size), p % size) then replies(p / size).results[p % size].value
                         else EMPTY_ENRICHMENT
  {
    hide OutputFor, IsAnswered, AnswerTo;
    if n > 0 {
      OutputsAreAnswers(replies, size, n - 1);
      PlaceOfLast(replies, size, n - 1);
      OnePlace(Row(map[], 0), replies((n - 1) / size), (n - 1) % size);
    }
  }

  function Unanswered(replies: nat -> Reply, size: nat): nat -> bool
    requires size > 0
  {
    (p: nat) => !IsAnswered(replies(p / size), p % size)
  }

  /** The errors are those of the unanswered rows in order, each with the row's own index and the
      reason of its batch. */
  lemma {:induction false} ErrorsAreUnanswered(rows: seq<Row>, replies: nat -> Reply, size: nat, n: nat)
    requires 0 < size && n <= |rows|
    ensures var missed, errors := Select(Unanswered(replies, size), n), Complaints(rows, replies, size, n);
      && |errors| == |missed|
      && forall k :: 0 <= k < |missed| ==>
           var p := missed[k];
           p < |rows| && errors[k].rowIndex == rows[p].sourceRowIndex
           && errors[k].reason == match replies(p / size)
                                  case Throws => BatchFailed
                                  case NotAnArray => InvalidFormat
                                  case Answers(_) => NoResult
  {
    hide ErrorFor, IsAnswered, AnswerTo;
    if n > 0 {
      ErrorsAreUnanswered(rows, replies, size, n - 1);
      PlaceOfLast(replies, size, n - 1);
      OnePlace(rows[n - 1], replies((n - 1) / size), (n - 1) % size);
    }
  }

  ghost predicate AllAnswered(replies: nat -> Reply, size: nat, n: nat)
    requires size > 0
  {
    forall p: nat :: p < n ==> IsAnswered(replies(p / size), p % size)
  }

  lemma AnsweredSurvives(reply: Reply, place: nat)
    requires IsAnswered(reply, place)
    ensures reply.Answers?
  {
  }

  lemma {:induction false} SelectAll(p: nat -> bool, n: nat)
    requires forall i: nat :: i < n ==> p(i)
    ensures |Select(p, n)| == n && forall i :: 0 <= i < n ==> Select(p, n)[i] == i
  {
    if n > 0 {
      SelectAll(p, n - 1);
    }
  }

  lemma AnsweredIsThere(reply: Reply, place: nat)
    requires IsAnswered(reply, place)
    ensures reply.Answers? && place < |reply.results| && reply.results[place].Some?
  {
  }

  /** If every row is answered, row `p` gets the element at its place in the answer to its batch, and
      there are no errors. */
  lemma EveryRowGetsItsAnswer(rows: seq<Row>, replies: nat -> Reply, size: nat)
    requires size > 0 && AllAnswered(replies, size, |rows|)
    ensures |Gathered(replies, size, |rows|)| == |rows|
    ensures forall p :: 0 <= p < |rows| ==>
      && replies(p / size).Answers? && p % size < |replies(p / size).results| && replies(p / size).results[p % size].Some?
      && Gathered(replies, size, |rows|)[p] == replies(p / size).results[p % size].value
    ensures Complaints(rows, replies, size, |rows|) == []
  {
    hide Gathered, Complaints, Select, IsAnswered, BatchOf, PlaceOf;
    var n := |rows|;
    forall p: nat | p < n ensures Survives(replies, size)(p) && !Unanswered(replies, size)(p) {
      PlaceOfLast(replies, size, p);
      assert IsAnswered(replies(p / size), p % size);
      AnsweredSurvives(replies(p / size), p % size);
    }
    SelectAll(Survives(replies, size), n);
    SelectNone(Unanswered(replies, size), n);
    OutputsAreAnswers(replies, size, n);
    ErrorsAreUnanswered(rows, replies, size, n);
    forall p | 0 <= p < n
      ensures && replies(p / size).Answers? && p % size < |replies(p / size).results|
              && replies(p / size).results[p % size].Some?
              && Gathered(replies, size, n)[p] == replies(p / size).results[p % size].value
    {
      assert IsAnswered(replies(p / size), p % size);
      AnsweredIsThere(replies(p / size), p % size);
    }
  }

  // ----- rows that are never sent to the model -----

  /** A row goes past the model exactly when a currency and a jurisdiction are at hand, in a mapped
      column or a truthy property of that name, and both coordinates are, all mapped or all given. */
  lemma GoesPastTheModelIff(row: Row, fields: FieldMapping)
    ensures !NeedsEnrichment(row, fields) <==>
      && (IsMapped(fields, Currency) || Has(row, "currency"))
      && (IsMapped(fields, Jurisdiction) || Has(row, "jurisdiction"))
      && (|| (IsMapped(fields, Latitude) && IsMapped(fields, Longitude))
          || (Has(row, "latitude") && Has(row, "longitude")))
  {
  }

  /** Its output holds the text of its name column and, in capitals, the code in its currency column if
      it is one; where no column is mapped the property of the default name stands in. Nothing else is
      given, nothing is inferred, and no review is asked for. */
  lemma DirectOutputIs(row: Row, fields: FieldMapping, name: string, currency: string)
    requires name == if IsMapped(fields, AssetName) then fields[AssetName].column.value else "asset_name"
    requires currency == if IsMapped(fields, Currency) then fields[Currency].column.value else "currency"
    ensures var output := BasicOutput(row, fields);
      && (match CellOf(row, name)
          case Falsy => output.normalizedAssetName == Given(Words(""))
          case Text(text) => output.normalizedAssetName == Given(Words(text))
          case Other(shown) => output.normalizedAssetName == Given(Words(shown)))
      && (output.currency.Given? <==> CellOf(row, currency).Text? && Upper(CellOf(row, currency).text) in CURRENCY_CODES)
      && (output.currency.Given? ==> output.currency == Given(Words(Upper(CellOf(row, currency).text))))
      && output.assetType == output.jurisdiction == Undefined && output.latitude == output.longitude == Undefined
      && output.confidenceSignals == Given(Signals(None, true, None, None, None, false)) && !output.needsReview
  {
    hide Upper;
  }

  lemma NothingCounted()
    ensures Count(IS_BATCH_FAILURE, []) == 0
  {
  }

  /** The outputs of a document whose rows are all answered: first those of the rows that go past the
      model, then the answers to the others, both in the order of the rows. */
  lemma AnsweredDocument(allRows: seq<Row>, fields: FieldMapping, replies: nat -> Reply)
    requires AllAnswered(replies, DEFAULT_BATCH_SIZE, |Filter(Needy(fields), allRows)|)
    ensures var direct, needy := Filter(Direct(fields), allRows), Filter(Needy(fields), allRows);
      var outputs := Combined(allRows, fields, replies);
      && |outputs| == |direct| + |needy| == |allRows|
      && (forall k :: 0 <= k < |direct| ==> outputs[k] == BasicOutput(direct[k], fields))
      && forall p :: 0 <= p < |needy| ==>
           && replies(p / 50).Answers? && p % 50 < |replies(p / 50).results| && replies(p / 50).results[p % 50].Some?
           && outputs[|direct| + p] == replies(p / 50).results[p % 50].value
  {
    hide Gathered, Complaints, Filter, BasicOutput, AllAnswered;
    EveryRowGetsItsAnswer(Filter(Needy(fields), allRows), replies, DEFAULT_BATCH_SIZE);
    NoRowIsLost(allRows, fields, replies);
    NothingCounted();
  }
}
