/// `main`: pick a mode from the arguments, run it over the lines of the
/// file, and print the report or the illegal-URL message.
module Program {
  import opened Aggregates
  import opened UrlCheck
  import opened Checkers
  import opened Reports
  import opened Arguments
  import opened Coordinator

  /** What a run shows the user: the usage message, the illegal-URL message
      (and nothing else), or the report. */
  datatype RunResult = UsageFailure | IllegalUrl | Printed(report: Report)

  function Conclude(o: Outcome): RunResult
  {
    match o
    case Aborted => IllegalUrl
    case Finished(a) => Printed(MakeReport(a))
  }

  /** `main`, with the file's lines given by their classifications. Every
      mode with a positive count shows what the serial checker shows; a
      count below one starts no worker and reports no data. */
  method RunProgram(argv: seq<string>, lines: seq<Classification>) returns (r: RunResult)
    ensures Dispatch(argv).Usage? <==> r.UsageFailure?
    ensures !Dispatch(argv).Usage? && Atoi(argv[2]) >= 1 ==> r == Conclude(Tally(lines))
    ensures !Dispatch(argv).Usage? && Atoi(argv[2]) < 1 ==> r == Printed(NoAverage(0))
  {
    match Dispatch(argv)
    case Usage =>
      r := UsageFailure;
    case Serial(_) =>
      var o := SerialChecker(lines);
      r := Conclude(o);
    case ParallelPipe(_, n) =>
      var o := ParallelPipeChecker(lines, n);
      r := Conclude(o);
    case ParallelMmap(_, n) =>
      var o := ParallelMmapChecker(lines, n);
      r := Conclude(o);
  }
}
