/** The prediction endpoint and its in-memory store of predictions (predict,
    data_store and generate_visualizations in app.py). A prediction is accepted
    only for positive age and income and a spending score in 1..100; an accepted
    one is appended to the store, which then feeds the charts. */
module Ledger {
  import opened Wrappers

  /** One entry of data_store: the customer's attributes and the cluster the
      trained model assigned. */
  datatype Record = Record(age: int, income: int, score: int, cluster: nat)

  const AgeKey: string := "age"
  const IncomeKey: string := "income"
  const ScoreKey: string := "score"
  const MaxScore: int := 100

  /** request.form.get(key, 0): a missing field reads as 0. */
  function FormValue(form: map<string, int>, key: string): int
  {
    if key in form then form[key] else 0
  }

  /** The input check of predict. */
  predicate Admissible(age: int, income: int, score: int)
  {
    age > 0 && income > 0 && 0 < score <= MaxScore
  }

  predicate AdmissibleRecord(r: Record)
  {
    Admissible(r.age, r.income, r.score)
  }

  /** The four chart files generate_visualizations reports, by chart name. */
  const ImageFiles: map<string, string> := map[
    "income_vs_score" := "income_vs_score.png",
    "age_vs_score" := "age_vs_score.png",
    "age_vs_income" := "age_vs_income.png",
    "cluster_distribution" := "cluster_distribution.png"]

  /** What predict answers: the assigned cluster with the charts, or the
      "Invalid input values" error. */
  datatype Outcome =
    | Assigned(cluster: nat, images: Option<map<string, string>>)
    | InvalidInput

  /** A missing form field reads as 0 and so always fails the input check. */
  lemma MissingFieldRejected(form: map<string, int>)
    requires AgeKey !in form || IncomeKey !in form || ScoreKey !in form
    ensures !Admissible(FormValue(form, AgeKey), FormValue(form, IncomeKey), FormValue(form, ScoreKey))
  {
  }

  /** The boundary values on either side of the check. */
  lemma AdmissibleBoundaries()
    ensures !Admissible(30, 50, 0) && !Admissible(30, 50, 101)
    ensures !Admissible(0, 50, 50) && !Admissible(30, -5, 50)
    ensures Admissible(1, 1, 1) && Admissible(30, 50, 100)
  {
  }

  /** data_store. Every record in it passed the input check. */
  class DataStore {
    var records: seq<Record>

    ghost predicate Valid()
      reads this
    {
      forall i :: 0 <= i < |records| ==> AdmissibleRecord(records[i])
    }

    /** The store is empty when the application starts. */
    constructor ()
      ensures Valid() && records == []
    {
      records := [];
    }

    /** generate_visualizations: no charts for an empty store, and none when
        rendering raises; otherwise the four chart files. Rendering itself is
        not modelled, only whether it raised. */
    function GenerateVisualizations(renderingFails: bool): (images: Option<map<string, string>>)
      reads this
      ensures images.None? <==> records == [] || renderingFails
      ensures images.Some? ==> images.value.Keys == {"income_vs_score", "age_vs_score", "age_vs_income", "cluster_distribution"}
      ensures images.Some? ==> forall name :: name in images.value ==> images.value[name] == name + ".png"
    {
      if records == [] || renderingFails then None else Some(ImageFiles)
    }

    /** predict: read the three fields (missing ones as 0), reject them unless
        they pass the input check, else ask the trained model for a cluster,
        append the record and build the charts. The trained scaler and K-means
        model are the opaque function classify. */
    method Predict(form: map<string, int>, classify: (int, int, int) -> nat, renderingFails: bool)
      returns (outcome: Outcome)
      requires Valid()
      modifies this
      ensures Valid()
      ensures
        var age, income, score := FormValue(form, AgeKey), FormValue(form, IncomeKey), FormValue(form, ScoreKey);
        (outcome.Assigned? <==> Admissible(age, income, score)) &&
        (outcome.Assigned? ==>
           outcome.cluster == classify(age, income, score) &&
           records == old(records) + [Record(age, income, score, outcome.cluster)])
      ensures outcome.InvalidInput? ==> records == old(records)
      ensures outcome.Assigned? ==> outcome.images == GenerateVisualizations(renderingFails)
      ensures outcome.Assigned? ==> (outcome.images.None? <==> renderingFails)
    {
      var age := FormValue(form, AgeKey);
      var income := FormValue(form, IncomeKey);
      var score := FormValue(form, ScoreKey);
      if !Admissible(age, income, score) {
        return InvalidInput;
      }
      var cluster := classify(age, income, score);
      records := records + [Record(age, income, score, cluster)];
      var images := GenerateVisualizations(renderingFails);
      outcome := Assigned(cluster, images);
    }
  }
}
