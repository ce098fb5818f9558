/** The entities every component shares: points, labels, records, and the error results. */
module Model {
  import opened Words

  /** A Go string: its bytes. */
  type Str = seq<byte>

  type Labels = map<Str, Str>

  /** One sample; `bits` is the IEEE 754 pattern of the value. */
  datatype Point = Point(ts: int64, bits: uint64)

  /** What identifies a series. */
  datatype Series = Series(metric: Str, labels: Labels)

  /** A batch of points of one series: a WAL record, a series in memory, a query result. */
  datatype Record = Record(metric: Str, labels: Labels, points: seq<Point>) {
    function Key(): Series {
      Series(metric, labels)
    }
  }

  /** One series inside a chunk file; the metric is the name of the directory. */
  datatype SeriesData = SeriesData(labels: Labels, points: seq<Point>)

  datatype Error =
    | UnexpectedEOF
    | ReuseBeforeBlock
    | FileTooSmall
    | InvalidMagic
    | CrcMismatch
    | UnknownVersion
    | MetricRequired
    | PointsRequired

  datatype Option<+T> = None | Some(value: T)

  /** A value or an error, usable with `:-`. */
  datatype Result<+T> = Ok(value: T) | Err(error: Error) {
    predicate IsFailure() {
      Err?
    }

    function PropagateFailure<U>(): Result<U>
      requires Err?
    {
      Err(error)
    }

    function Extract(): T
      requires Ok?
    {
      value
    }
  }

  /** The label filter of queries and drops: a Go map lookup of an absent label gives "". */
  predicate LabelsMatch(filter: Labels, actual: Labels) {
    forall k :: k in filter ==> (if k in actual then actual[k] else []) == filter[k]
  }

  /** Some label of the filter is there with another value, or is absent though the filter asks
      for a value that is not empty. */
  ghost predicate Lacks(labels: Labels, filter: Labels) {
    exists k :: k in filter && if k in labels then labels[k] != filter[k] else filter[k] != []
  }

  /** A series matches exactly when it lacks no label: each label of the filter is there with its
      value, or is absent and asked for with the empty value. */
  lemma {:induction false} LacksExactly(filter: Labels, actual: Labels)
    ensures LabelsMatch(filter, actual) <==> !Lacks(actual, filter)
    ensures LabelsMatch(filter, actual)
       <==> forall k :: k in filter ==>
              (k in actual && actual[k] == filter[k]) || (k !in actual && filter[k] == [])
  {
  }
}
