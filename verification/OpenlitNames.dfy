/** The names and paths of the source. */
module OpenlitNames {
  import opened EnvEdits
  import opened SdkInjection
  import opened Preflight
  import opened Text

  const PYTHONPATH: Key := "PYTHONPATH"
  const OPENLIT_CONTROLLER_MODE: Key := "OPENLIT_CONTROLLER_MODE"
  const OTEL_SERVICE_NAME: Key := "OTEL_SERVICE_NAME"
  const OTEL_EXPORTER_OTLP_ENDPOINT: Key := "OTEL_EXPORTER_OTLP_ENDPOINT"
  const OTEL_DEPLOYMENT_ENVIRONMENT: Key := "OTEL_DEPLOYMENT_ENVIRONMENT"
  const OTEL_RESOURCE_ATTRIBUTES: Key := "OTEL_RESOURCE_ATTRIBUTES"
  const OTEL_EXPORTER_OTLP_PROTOCOL: Key := "OTEL_EXPORTER_OTLP_PROTOCOL"
  const OTEL_EXPORTER_OTLP_TRACES_ENDPOINT: Key := "OTEL_EXPORTER_OTLP_TRACES_ENDPOINT"
  const OTEL_EXPORTER_OTLP_METRICS_ENDPOINT: Key := "OTEL_EXPORTER_OTLP_METRICS_ENDPOINT"
  const OTEL_EXPORTER_OTLP_LOGS_ENDPOINT: Key := "OTEL_EXPORTER_OTLP_LOGS_ENDPOINT"
  const OTEL_EXPORTER_OTLP_HEADERS: Key := "OTEL_EXPORTER_OTLP_HEADERS"
  const OPENLIT_DISABLED_INSTRUMENTORS: Key := "OPENLIT_DISABLED_INSTRUMENTORS"

  function Name(v: Variable): Key {
    match v
    case PythonPath => PYTHONPATH
    case ControllerMode => OPENLIT_CONTROLLER_MODE
    case ServiceName => OTEL_SERVICE_NAME
    case Endpoint => OTEL_EXPORTER_OTLP_ENDPOINT
    case DeploymentEnvironment => OTEL_DEPLOYMENT_ENVIRONMENT
    case ResourceAttributes => OTEL_RESOURCE_ATTRIBUTES
    case Protocol => OTEL_EXPORTER_OTLP_PROTOCOL
    case TracesEndpoint => OTEL_EXPORTER_OTLP_TRACES_ENDPOINT
    case MetricsEndpoint => OTEL_EXPORTER_OTLP_METRICS_ENDPOINT
    case LogsEndpoint => OTEL_EXPORTER_OTLP_LOGS_ENDPOINT
    case Headers => OTEL_EXPORTER_OTLP_HEADERS
    case DisabledInstrumentors => OPENLIT_DISABLED_INSTRUMENTORS
  }

  const WORKLOAD_KEY: Key := "service.workload.key"

  const MOUNT_PATH := "/instrumentation-packages"

  const OPENLIT := Naming(
    Name,
    MOUNT_PATH + "/bootstrap:" + MOUNT_PATH + "/packages",
    MOUNT_PATH,
    WORKLOAD_KEY,
    "agent_observability",
    "openai,anthropic,cohere,mistral,groq,google-ai-studio,azure-ai-inference,bedrock,vertexai,together,fireworks,"
    + "deepseek,ollama,litellm,httpx,requests,urllib,urllib3,aiohttp-client")

  /** The names differ: in length, or else in a letter. */
  lemma NamesDiffer(v: Variable, w: Variable)
    requires Name(v) == Name(w)
    ensures v == w
  {
    assert |Name(PythonPath)| == 10 && |Name(ControllerMode)| == 23 && |Name(ServiceName)| == 17;
    assert |Name(ResourceAttributes)| == 24 && |Name(TracesEndpoint)| == 34 && |Name(MetricsEndpoint)| == 35;
    assert |Name(LogsEndpoint)| == 32 && |Name(Headers)| == 26 && |Name(DisabledInstrumentors)| == 30;
    assert |Name(Endpoint)| == |Name(Protocol)| == |Name(DeploymentEnvironment)| == 27;
    assert Name(Endpoint)[19] == 'E' && Name(Protocol)[19] == 'P';
    assert Name(Endpoint)[5] == Name(Protocol)[5] == 'E' && Name(DeploymentEnvironment)[5] == 'D';
  }

  /** What is proved of every naming holds of this one. */
  lemma OpenlitIsWellNamed()
    ensures WellNamed(OPENLIT)
  {
    forall v, w | OPENLIT.key(v) == OPENLIT.key(w) ensures v == w {
      NamesDiffer(v, w);
    }
  }

  /** Which name each variable goes by. */
  lemma OpenlitKeys()
    ensures OPENLIT.key(PythonPath) == "PYTHONPATH" && OPENLIT.key(ControllerMode) == "OPENLIT_CONTROLLER_MODE"
    ensures OPENLIT.key(ServiceName) == "OTEL_SERVICE_NAME"
    ensures OPENLIT.key(Endpoint) == "OTEL_EXPORTER_OTLP_ENDPOINT"
    ensures OPENLIT.key(DeploymentEnvironment) == "OTEL_DEPLOYMENT_ENVIRONMENT"
    ensures OPENLIT.key(ResourceAttributes) == "OTEL_RESOURCE_ATTRIBUTES"
    ensures OPENLIT.key(Protocol) == "OTEL_EXPORTER_OTLP_PROTOCOL"
    ensures OPENLIT.key(TracesEndpoint) == "OTEL_EXPORTER_OTLP_TRACES_ENDPOINT"
    ensures OPENLIT.key(MetricsEndpoint) == "OTEL_EXPORTER_OTLP_METRICS_ENDPOINT"
    ensures OPENLIT.key(LogsEndpoint) == "OTEL_EXPORTER_OTLP_LOGS_ENDPOINT"
    ensures OPENLIT.key(Headers) == "OTEL_EXPORTER_OTLP_HEADERS"
    ensures OPENLIT.key(DisabledInstrumentors) == "OPENLIT_DISABLED_INSTRUMENTORS"
    ensures OPENLIT.workloadKey == "service.workload.key" && OPENLIT.agentMode == "agent_observability"
  {
  }

  const PROBE := Probe("OPENLIT_DISABLE_METRICS", "OPENLIT_DISABLE_EVENTS", "OTEL_PYTHON_DISTRO",
                       "OTEL_PYTHON_CONFIGURATOR", "OTEL_EXPORTER_", "openlit", "opentelemetry-instrument")

  lemma ProbeKeysDiffer(v: Variable)
    ensures Name(v) != PROBE.disableMetrics && Name(v) != PROBE.disableEvents
    ensures Name(v) != PROBE.pythonDistro && Name(v) != PROBE.pythonConfigurator
  {
    assert |PROBE.disableMetrics| == 23 && PROBE.disableMetrics[8] == 'D' && OPENLIT_CONTROLLER_MODE[8] == 'C';
    assert |PROBE.disableEvents| == 22 && |PROBE.pythonDistro| == 18;
    assert |PROBE.pythonConfigurator| == 24 && PROBE.pythonConfigurator[5] == 'P' && OTEL_RESOURCE_ATTRIBUTES[5] == 'R';
  }

  lemma ExporterKeysDropped(v: Variable)
    requires PROBE.exporterPrefix <= Name(v)
    ensures IsDropped(v)
  {
    assert PROBE.exporterPrefix[5] == 'E';
    assert OTEL_SERVICE_NAME[5] == 'S' && OTEL_RESOURCE_ATTRIBUTES[5] == 'R' && PYTHONPATH[0] == 'P';
  }

  lemma PathIsLower()
    ensures Lower(OPENLIT.managedPath) == OPENLIT.managedPath
  {
  }

  lemma OpenlitIsWellProbed()
    ensures WellProbed(OPENLIT, PROBE)
  {
    PathIsLower();
    forall v
      ensures OPENLIT.key(v) != PROBE.disableMetrics && OPENLIT.key(v) != PROBE.disableEvents
      ensures OPENLIT.key(v) != PROBE.pythonDistro && OPENLIT.key(v) != PROBE.pythonConfigurator
      ensures PROBE.exporterPrefix <= OPENLIT.key(v) ==> IsDropped(v)
    {
      ProbeKeysDiffer(v);
      if PROBE.exporterPrefix <= Name(v) {
        ExporterKeysDropped(v);
      }
    }
  }
}
