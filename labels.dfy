/**
 * Label derivation for one record: the synthesized `name` and the label map
 * `GetLabels` hands to every gauge vector.
 */
module Labels {
  import opened Strings
  import opened Sampler

  /** The variable label names of every gauge vector, in schema order. */
  const LabelNames: seq<string> := ["name", "dag", "operator", "exec_date"]

  /** `getName`: the operator (qualified by the dag unless it already contains it), then the execution date. */
  function GetName(p: AirflowProcess): (name: string)
    ensures |name| > |p.operator| + |p.execDate|
    ensures name[..|p.operator|] == p.operator
    ensures name[|name| - |p.execDate| - 1..] == "_" + p.execDate
  {
    var head := if Contains(p.operator, p.dag) then p.operator else p.operator + "." + p.dag;
    assert head[..|p.operator|] == p.operator;
    var name := Join([head, p.execDate], "_");
    assert [head, p.execDate][1..] == [p.execDate];
    assert Join([p.execDate], "_") == p.execDate;
    assert name == [head, p.execDate][0] + "_" + Join([p.execDate], "_");
    assert name[|name| - |p.execDate| - 1..] == "_" + p.execDate;
    name
  }

  /** `GetLabels`: the label map of a record; its keys are exactly the gauge schema. */
  function GetLabels(p: AirflowProcess): (labels: map<string, string>)
    ensures labels.Keys == set n | n in LabelNames
  {
    map["name" := GetName(p), "dag" := p.dag, "operator" := p.operator, "exec_date" := p.execDate]
  }

  /**
   * The case split of the name: the operator alone when it contains the dag
   * id, otherwise operator "." dag; in both cases followed by "_" and the
   * execution date.
   */
  lemma NameCases(p: AirflowProcess)
    ensures Contains(p.operator, p.dag) ==> GetName(p) == p.operator + "_" + p.execDate
    ensures !Contains(p.operator, p.dag) ==> GetName(p) == p.operator + "." + p.dag + "_" + p.execDate
  {
    var head := if Contains(p.operator, p.dag) then p.operator else p.operator + "." + p.dag;
    assert Join([head, p.execDate], "_") == head + "_" + Join([p.execDate], "_");
  }

  /** A record with blank identity (no pattern match) is named "_": the empty dag id is always contained. */
  lemma BlankIdentityName(p: AirflowProcess)
    requires p.dag == "" && p.operator == "" && p.execDate == ""
    ensures GetName(p) == "_"
  {
    ContainsEmpty(p.operator);
    NameCases(p);
  }

  /**
   * The name alone does not identify a series: two records with different dag
   * ids can share it, so only the full label tuple distinguishes them.
   */
  lemma NameNotUnique(p: AirflowProcess)
    requires p.dag == "ab" && p.operator == "ab"
    ensures GetLabels(p.(dag := "b")) != GetLabels(p)
    ensures GetName(p.(dag := "b")) == GetName(p)
  {
    var q := p.(dag := "b");
    assert OccursAt(p.operator, p.dag, 0);
    assert OccursAt(q.operator, q.dag, 1);
    NameCases(p);
    NameCases(q);
    assert GetLabels(q)["dag"] != GetLabels(p)["dag"];
  }

  /** Two records get the same label map exactly when they agree on dag, operator and execution date. */
  lemma LabelsIdentify(p: AirflowProcess, q: AirflowProcess)
    ensures GetLabels(p) == GetLabels(q) <==> (p.dag, p.operator, p.execDate) == (q.dag, q.operator, q.execDate)
  {
    if GetLabels(p) == GetLabels(q) {
      assert GetLabels(p)["dag"] == GetLabels(q)["dag"];
      assert GetLabels(p)["operator"] == GetLabels(q)["operator"];
      assert GetLabels(p)["exec_date"] == GetLabels(q)["exec_date"];
    }
  }

  /** An example: a task id that does not contain the dag id is qualified by the dag id. */
  lemma NameExampleQualified(p: AirflowProcess)
    requires p.dag == "my_dag" && p.operator == "extract_op" && p.execDate == "2024-01-02T03:04:05"
    ensures GetName(p) == "extract_op" + "." + "my_dag" + "_" + "2024-01-02T03:04:05"
  {
    assert 'm' !in p.operator;
    MissingFirstChar(p.operator, p.dag);
    NameCases(p);
  }

  /** An example: a task id that contains the dag id is used as it stands. */
  lemma NameExampleContained(p: AirflowProcess)
    requires p.dag == "my_dag" && p.operator == "my_dag_extract" && p.execDate == "2024-01-02T03:04:05"
    ensures GetName(p) == "my_dag_extract" + "_" + "2024-01-02T03:04:05"
  {
    assert p.operator[0..|p.dag|] == p.dag by {
      forall k | 0 <= k < |p.dag|
        ensures p.operator[0..|p.dag|][k] == p.dag[k]
      {
      }
    }
    assert OccursAt(p.operator, p.dag, 0);
    NameCases(p);
  }
}
