/**
 * The label taxonomy tables of cateye/cateye.py: the NSLR-HMM class ids and the
 * REMoDNaV event codes, each mapped to a canonical category name, plus the
 * element-wise dictionary lookup (`[table[k] for k in keys]`) that both adapters use.
 */
module Taxonomy {
  import opened Wrappers

  /**
   * A class id as emitted by the NSLR-HMM backend. The package's four class
   * constants are distinct values; `Unclassified` is the Python `None` key of
   * `CLASSES`; `Other` stands for any id that is none of these.
   */
  datatype NslrId = Fixation | Saccade | SmoothPursuit | Pso | Unclassified | Other(raw: int)

  /** `CLASSES`: NSLR-HMM class id to canonical name. */
  const Classes: map<NslrId, string> :=
    map[Fixation := "Fixation", Saccade := "Saccade", SmoothPursuit := "Smooth Pursuit",
        Pso := "PSO", Unclassified := "None"]

  /** The eight event codes REMoDNaV emits. */
  const RemodnavCodes: set<string> :=
    {"FIXA", "SACC", "ISAC", "PURS", "HPSO", "LPSO", "IHPS", "ILPS"}

  /** The four base gaze categories of the simplified output. */
  const BaseCategories: set<string> := {"Fixation", "Saccade", "Smooth Pursuit", "PSO"}

  /** `REMODNAV_CLASSES`: REMoDNaV code to full name. */
  const RemodnavClasses: map<string, string> :=
    map["FIXA" := "Fixation", "SACC" := "Saccade",
        "ISAC" := "ISaccade", "PURS" := "Smooth Pursuit",
        "HPSO" := "High-Velocity PSO",
        "LPSO" := "Low-Velocity PSO",
        "IHPS" := "High-Velocity PSO (NCB)",
        "ILPS" := "Low-Velocity PSO (NCB)"]

  /** `REMODNAV_SIMPLE`: REMoDNaV code to one of the four base categories. */
  const RemodnavSimple: map<string, string> :=
    map["FIXA" := "Fixation", "SACC" := "Saccade",
        "ISAC" := "Saccade", "PURS" := "Smooth Pursuit",
        "HPSO" := "PSO", "LPSO" := "PSO",
        "IHPS" := "PSO", "ILPS" := "PSO"]

  /** The table `classify_remodnav` selects: the simplified one iff `simple_output`. */
  function RemodnavTable(simple: bool): (t: map<string, string>)
    ensures t.Keys == RemodnavCodes
    ensures simple ==> t.Values <= BaseCategories
    ensures simple ==> t == RemodnavSimple
    ensures !simple ==> t == RemodnavClasses
  {
    if simple then RemodnavSimple else RemodnavClasses
  }

  /**
   * Reference definition of the simplification, independent of the tables:
   * direction- and quality-refined names fall back to their base category.
   */
  function Coarsen(name: string): string {
    if name == "ISaccade" then "Saccade"
    else if name in {"High-Velocity PSO", "Low-Velocity PSO",
                     "High-Velocity PSO (NCB)", "Low-Velocity PSO (NCB)"} then "PSO"
    else name
  }

  /** `CLASSES` is defined exactly on the four classes and `None`; every other id fails. */
  lemma ClassesDomain(id: NslrId)
    ensures id in Classes <==> !id.Other?
    ensures id == Fixation ==> Classes[id] == "Fixation"
    ensures id == Saccade ==> Classes[id] == "Saccade"
    ensures id == SmoothPursuit ==> Classes[id] == "Smooth Pursuit"
    ensures id == Pso ==> Classes[id] == "PSO"
    ensures id == Unclassified ==> Classes[id] == "None"
  {
  }

  /** Distinct NSLR-HMM ids get distinct names: the table loses no information. */
  lemma ClassesInjective(a: NslrId, b: NslrId)
    requires a in Classes && b in Classes && a != b
    ensures Classes[a] != Classes[b]
  {
  }

  /** Both REMoDNaV tables are defined on exactly the same eight codes. */
  lemma RemodnavTablesShareKeys()
    ensures RemodnavClasses.Keys == RemodnavCodes
    ensures RemodnavSimple.Keys == RemodnavCodes
  {
  }

  /** Every simplified name is one of the four base categories, and each of them occurs. */
  lemma RemodnavSimpleRange()
    ensures RemodnavSimple.Values == BaseCategories
  {
    assert RemodnavSimple["FIXA"] == "Fixation";
    assert RemodnavSimple["SACC"] == "Saccade";
    assert RemodnavSimple["PURS"] == "Smooth Pursuit";
    assert RemodnavSimple["HPSO"] == "PSO";
  }

  /** The simplified table is the full table followed by the coarsening of names. */
  lemma RemodnavSimpleCoarsensFull(code: string)
    requires code in RemodnavCodes
    ensures RemodnavSimple[code] == Coarsen(RemodnavClasses[code])
    ensures code in {"FIXA", "SACC", "PURS"} ==> RemodnavSimple[code] == RemodnavClasses[code]
    ensures code == "ISAC" ==> RemodnavSimple[code] == "Saccade"
    ensures code in {"HPSO", "LPSO", "IHPS", "ILPS"} ==> RemodnavSimple[code] == "PSO"
  {
  }

  /** The full table keeps every code apart. */
  lemma RemodnavClassesInjective(c: string, d: string)
    requires c in RemodnavCodes && d in RemodnavCodes && c != d
    ensures RemodnavClasses[c] != RemodnavClasses[d]
  {
  }

  /**
   * `[table[k] for k in keys]`: the element-wise image of `keys`, or the first key
   * (in order) that the table lacks, where Python raises `KeyError`.
   */
  function Translate<K(==)>(table: map<K, string>, keys: seq<K>): (r: Result<seq<string>, K>)
    ensures r.Success? <==> forall i :: 0 <= i < |keys| ==> keys[i] in table
    ensures r.Success? ==> |r.value| == |keys|
    ensures r.Success? ==> forall i :: 0 <= i < |keys| ==> r.value[i] == table[keys[i]]
    ensures r.Failure? ==> r.error !in table
    ensures r.Failure? ==>
      exists i :: 0 <= i < |keys| && keys[i] == r.error && forall j :: 0 <= j < i ==> keys[j] in table
    decreases |keys|
  {
    if keys == [] then Success([])
    else if keys[0] !in table then Failure(keys[0])
    else
      match Translate(table, keys[1..])
      case Success(rest) => Success([table[keys[0]]] + rest)
      case Failure(k) => Failure(k)
  }
}
