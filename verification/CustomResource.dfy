/** The Nacos custom resource, the errors the operator panics with, and how a panic travels. */
module CustomResource {
  import opened PodModel

  datatype Phase = PhaseNone | PhaseCreating | PhaseRunning | PhaseFailed | PhaseScale

  datatype Event = Event(status: bool, firstAppearTime: int, lastTransitionTime: int, message: string, code: int)

  datatype Condition = Condition(kind: string, status: string, instance: string, podName: string, nodeName: string)

  datatype Status = Status(phase: Phase, events: seq<Event>, conditions: seq<Condition>, version: string)

  datatype Spec = Spec(kind: string, replicas: Option<int>, config: string, databaseType: string,
      mysqlInitImage: string)

  class Nacos {
    const created: int
    var spec: Spec
    var status: Status

    constructor (created: int, spec: Spec, status: Status)
      ensures this.created == created && this.spec == spec && this.status == status
    {
      this.created, this.spec, this.status := created, spec, status;
    }
  }

  const CODE_NORMAL := 200
  const CODE_PARAMETER_ERROR := 301
  const CODE_CLUSTER_FAILE := 401
  const CODE_ERR_UNKNOW := -1

  /** An operator error carries a code; any other panic is a plain error or a runtime fault. */
  datatype Panic = OperatorError(code: int, msg: string) | OtherPanic

  /** What a call that may panic hands back; `:-` lets a panic pass through. */
  datatype Outcome<+T> = Returned(value: T) | Panicked(panic: Panic) {
    predicate IsFailure() { Panicked? }

    function PropagateFailure<U>(): Outcome<U>
      requires Panicked?
    {
      Panicked(panic)
    }

    function Extract(): T
      requires Returned?
    {
      value
    }
  }
}
