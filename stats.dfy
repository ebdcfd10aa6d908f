/** The relabelling in `DataProcessor.get_descriptive_stats`: the row labels of pandas'
    `describe()` table are renamed to Polish ones. The statistics themselves are not part of
    this model; a table's values are of any type V. */
module Stats {

  /** The row labels `describe()` gives a numeric table, in its order. */
  const DESCRIBE_LABELS: seq<string> := ["count", "mean", "std", "min", "25%", "50%", "75%", "max"]

  /** `polish_labels`. */
  const POLISH_LABELS: map<string, string> := map[
    "count" := "Liczba rekordów",
    "mean" := "Średnia",
    "std" := "Odch. standardowe",
    "min" := "Minimum",
    "25%" := "1. kwartyl (25%)",
    "50%" := "Mediana (50%)",
    "75%" := "3. kwartyl (75%)",
    "max" := "Maksimum"]

  /** A statistics table: row labels, column names, one row of values per label. */
  datatype StatsTable<V> = StatsTable(index: seq<string>, columns: seq<string>, values: seq<seq<V>>)

  /** `rename(index=...)` on one label: a label without an entry is kept. */
  function Relabel(name: string): string
  {
    if name in POLISH_LABELS then POLISH_LABELS[name] else name
  }

  /** `stats.rename(index=polish_labels)`: only the row labels change. */
  function RenameIndex<V>(t: StatsTable<V>): (r: StatsTable<V>)
    ensures r.columns == t.columns && r.values == t.values
    ensures |r.index| == |t.index|
    ensures forall i :: 0 <= i < |t.index| ==> r.index[i] == Relabel(t.index[i])
  {
    StatsTable(seq(|t.index|, i requires 0 <= i < |t.index| => Relabel(t.index[i])), t.columns, t.values)
  }

  /** The map has an entry for each of the eight `describe()` labels and for nothing else. */
  lemma LabelMapKeys()
    ensures POLISH_LABELS.Keys == set l | l in DESCRIBE_LABELS
  {
  }

  /** The eight labels are sent to eight distinct Polish labels. */
  lemma LabelMapDistinct()
    ensures forall i, j :: 0 <= i < j < |DESCRIBE_LABELS| ==>
      Relabel(DESCRIBE_LABELS[i]) != Relabel(DESCRIBE_LABELS[j])
  {
  }

  /** No Polish label is itself a `describe()` label, so renaming never makes two rows share
      a label with an untranslated one. */
  lemma LabelMapFresh()
    ensures forall i :: 0 <= i < |DESCRIBE_LABELS| ==> Relabel(DESCRIBE_LABELS[i]) !in DESCRIBE_LABELS
  {
  }

  /** A `describe()` table comes out with the eight Polish labels in the same order. */
  lemma DescribeRelabelled<V>(t: StatsTable<V>)
    requires t.index == DESCRIBE_LABELS
    ensures RenameIndex(t).index == ["Liczba rekordów", "Średnia", "Odch. standardowe", "Minimum",
                                     "1. kwartyl (25%)", "Mediana (50%)", "3. kwartyl (75%)", "Maksimum"]
  {
    var r := RenameIndex(t).index;
    assert r[0] == Relabel("count");
  }

  /** Renaming loses nothing: two tables labelled with `describe()` labels that look the same
      after renaming were the same before. */
  lemma RenameIndexInjective<V>(t1: StatsTable<V>, t2: StatsTable<V>)
    requires forall i :: 0 <= i < |t1.index| ==> t1.index[i] in DESCRIBE_LABELS
    requires forall i :: 0 <= i < |t2.index| ==> t2.index[i] in DESCRIBE_LABELS
    requires RenameIndex(t1) == RenameIndex(t2)
    ensures t1 == t2
  {
    LabelMapDistinct();
    forall i | 0 <= i < |t1.index| ensures t1.index[i] == t2.index[i] {
      var a, b := t1.index[i], t2.index[i];
      assert Relabel(a) == RenameIndex(t1).index[i] == RenameIndex(t2).index[i] == Relabel(b);
      var ia :| 0 <= ia < |DESCRIBE_LABELS| && DESCRIBE_LABELS[ia] == a;
      var ib :| 0 <= ib < |DESCRIBE_LABELS| && DESCRIBE_LABELS[ib] == b;
      assert ia == ib;
    }
  }
}
