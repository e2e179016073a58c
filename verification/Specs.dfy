/** The spec types of the custom resources (package api/v1alpha1). */
module Specs {
  import opened Wrappers
  import opened JsonTree
  import opened EscapeHatch

  datatype ResourceRef = ResourceRef(resource: string, kind: string, apiVersion: string, namespace: string)

  /** `quantity` is what the text `size` parses to, or None when resource.ParseQuantity rejects it. */
  datatype VolumeSpec = VolumeSpec(
    name: string,
    size: string,
    quantity: Option<Json>,
    mountPath: string,
    accessModes: seq<string>)

  datatype GatewayRoute = GatewayRoute(hostnames: seq<string>, paths: seq<string>)

  datatype ServicePort = ServicePort(port: int, extra: map<string, Json>)

  datatype IntOrString = IntOrString(isString: bool, intVal: int, strVal: string) {
    predicate IsSet() {
      intVal > 0 || strVal != ""
    }

    function ToJson(): Json {
      if isString then Str(strVal) else Num(intVal)
    }
  }

  datatype Autoscaling = Autoscaling(minReplicas: int, maxReplicas: int, targetCpu: int, targetMemory: int)

  /** Typed values marshal without null members; the deep affinity types themselves stay opaque. */
  type CleanJson = j: Json | NoNulls(j) witness Obj(map[])

  datatype Affinity = Affinity(
    nodeAffinity: Option<CleanJson>,
    podAffinity: Option<CleanJson>,
    podAntiAffinity: Option<CleanJson>)

  datatype Scheduling = Scheduling(nodeSelector: map<string, string>, affinity: Affinity, spread: seq<Json>) {
    predicate IsSet() {
      |nodeSelector| > 0 || affinity.nodeAffinity.Some? || affinity.podAffinity.Some?
      || affinity.podAntiAffinity.Some? || |spread| > 0
    }
  }

  datatype Spec =
    | ComputeSpec(targetRef: ResourceRef, hatches: seq<Hatch>, autoscaling: Autoscaling, scheduling: Scheduling,
                  minAvailable: IntOrString, maxUnavailable: IntOrString)
    | StorageSpec(targetRef: ResourceRef, hatches: seq<Hatch>, storageClassName: string, volumes: seq<VolumeSpec>)
    | NetworkingSpec(targetRef: ResourceRef, hatches: seq<Hatch>, ports: seq<ServicePort>, serviceType: string,
                     publicRoutes: seq<GatewayRoute>, privateRoutes: seq<GatewayRoute>, tlsSecretName: string)
    | ObservabilitySpec(targetRef: ResourceRef, hatches: seq<Hatch>)
    | SecuritySpec(targetRef: ResourceRef, hatches: seq<Hatch>, createRole: bool, rules: seq<Json>)

  datatype Capability = Compute | Storage | Networking | Observability | Security

  datatype WorkloadSpec = WorkloadSpec(
    targetRef: ResourceRef,
    compute: Spec,
    storage: Spec,
    networking: Spec,
    observability: Spec,
    security: Spec)
  {
    function Of(cap: Capability): Spec {
      match cap
      case Compute => compute
      case Storage => storage
      case Networking => networking
      case Observability => observability
      case Security => security
    }
  }
}
