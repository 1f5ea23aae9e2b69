/** ROBOT_CONFIG and RobotPathResolver (src/Constants/robotConfig.ts): mesh
    directory layout and the rewriting of mesh paths found in the robot
    description. */
module RobotConfig {
  import opened Wrappers
  import opened Strings

  /** Mesh sub-directories; `obj` and `dae` are optional. */
  datatype MeshPaths = MeshPaths(stl: string, obj: Option<string>, dae: Option<string>)

  datatype Config = Config(urdfPath: string, meshBasePath: string, meshPaths: MeshPaths)

  /** The computed `fullMeshPaths` record. */
  datatype FullMeshPaths = FullMeshPaths(stl: string, obj: Option<string>, dae: Option<string>)

  datatype MeshFormat = Stl | Obj | Dae {
    /** The property name used as key in `getAllMeshPaths`. */
    function Key(): string
    {
      match this
      case Stl => "stl"
      case Obj => "obj"
      case Dae => "dae"
    }
  }

  datatype ConfigError = FormatNotConfigured(format: MeshFormat)

  /** The robot's configuration. */
  const ROBOT_CONFIG: Config := Config("/InMoov.urdf", "/meshes", MeshPaths("stl", Some("obj"), Some("dae")))

  /** Mesh paths in the robot description are relative to this prefix. */
  const URDF_MESH_PREFIX: string := "../meshes/"

  /** A JavaScript string used as a condition: defined and not empty. */
  predicate Truthy(x: Option<string>)
  {
    x.Some? && x.value != ""
  }

  /** The `fullMeshPaths` getter: `${meshBasePath}/${sub}` for stl, and for
      obj and dae only when their sub-directory is truthy. */
  function FullMeshPathsOf(cfg: Config): (r: FullMeshPaths)
    ensures forall f: MeshFormat :: PathOf(r, f).Some? <==> f == Stl || Truthy(SubdirOf(cfg, f))
    ensures forall f: MeshFormat :: PathOf(r, f).Some? ==> SubdirOf(cfg, f).Some? && PathOf(r, f).value == cfg.meshBasePath + "/" + SubdirOf(cfg, f).value
  {
    var base := cfg.meshBasePath;
    FullMeshPaths(
      base + "/" + cfg.meshPaths.stl,
      if Truthy(cfg.meshPaths.obj) then Some(base + "/" + cfg.meshPaths.obj.value) else None,
      if Truthy(cfg.meshPaths.dae) then Some(base + "/" + cfg.meshPaths.dae.value) else None)
  }

  /** `fullMeshPaths[format]`. */
  function PathOf(full: FullMeshPaths, format: MeshFormat): Option<string>
  {
    match format
    case Stl => Some(full.stl)
    case Obj => full.obj
    case Dae => full.dae
  }

  /** The configured sub-directory of a format, if any. */
  function SubdirOf(cfg: Config, format: MeshFormat): Option<string>
  {
    match format
    case Stl => Some(cfg.meshPaths.stl)
    case Obj => cfg.meshPaths.obj
    case Dae => cfg.meshPaths.dae
  }

  /** `getMeshPath`: fails exactly for an optional format whose sub-directory
      is missing or empty; otherwise `meshBasePath/sub`. */
  function GetMeshPath(cfg: Config, format: MeshFormat): (r: Result<string, ConfigError>)
    ensures r.Failure? <==> format != Stl && !Truthy(SubdirOf(cfg, format))
    ensures r.Failure? ==> r.error == FormatNotConfigured(format)
    ensures r.Success? ==> r.value == cfg.meshBasePath + "/" + SubdirOf(cfg, format).value
  {
    var path := PathOf(FullMeshPathsOf(cfg), format);
    if !Truthy(path) then Failure(FormatNotConfigured(format)) else Success(path.value)
  }

  /** `getFullMeshFilePath`: the format's directory followed by `/filename`;
      the format defaults to stl, which never fails. */
  function GetFullMeshFilePath(cfg: Config, filename: string, format: MeshFormat := Stl): (r: Result<string, ConfigError>)
    ensures r.Failure? <==> GetMeshPath(cfg, format).Failure?
    ensures r.Success? ==> r.value == cfg.meshBasePath + "/" + SubdirOf(cfg, format).value + "/" + filename
    ensures format == Stl ==> r.Success?
  {
    match GetMeshPath(cfg, format)
    case Failure(e) => Failure(e)
    case Success(basePath) => Success(basePath + "/" + filename)
  }

  /** `resolveUrdfMeshPath`: a path under `../meshes/` is moved under the
      mesh base path; any other path is returned unchanged. */
  function ResolveUrdfMeshPath(cfg: Config, urdfMeshPath: string): (r: string)
    ensures StartsWith(urdfMeshPath, URDF_MESH_PREFIX) ==>
              r == cfg.meshBasePath + "/" + urdfMeshPath[|URDF_MESH_PREFIX|..]
    ensures !StartsWith(urdfMeshPath, URDF_MESH_PREFIX) ==> r == urdfMeshPath
  {
    if StartsWith(urdfMeshPath, URDF_MESH_PREFIX) then
      var relativePath := ReplaceFirst(urdfMeshPath, URDF_MESH_PREFIX, "");
      cfg.meshBasePath + "/" + relativePath
    else urdfMeshPath
  }

  /** Resolving twice is resolving once whenever the base path does not
      start with '.', since then no resolved path starts with `../meshes/`. */
  lemma ResolveIdempotent(cfg: Config, p: string)
    requires cfg.meshBasePath != [] && cfg.meshBasePath[0] != '.'
    ensures ResolveUrdfMeshPath(cfg, ResolveUrdfMeshPath(cfg, p)) == ResolveUrdfMeshPath(cfg, p)
  {
    var r := ResolveUrdfMeshPath(cfg, p);
    if StartsWith(p, URDF_MESH_PREFIX) {
      assert r[0] == cfg.meshBasePath[0];
      assert !StartsWith(r, URDF_MESH_PREFIX);
    }
  }

  /** The robot's own configuration satisfies the idempotence condition, and
      resolves `../meshes/x` to `/meshes/x`. */
  lemma RobotConfigResolves(p: string)
    ensures ResolveUrdfMeshPath(ROBOT_CONFIG, ResolveUrdfMeshPath(ROBOT_CONFIG, p)) == ResolveUrdfMeshPath(ROBOT_CONFIG, p)
    ensures StartsWith(p, URDF_MESH_PREFIX) ==> ResolveUrdfMeshPath(ROBOT_CONFIG, p) == "/meshes/" + p[10..]
  {
    ResolveIdempotent(ROBOT_CONFIG, p);
  }

  /** `getAllMeshPaths`: a record holding exactly the formats whose full path
      is defined, under their property names. */
  function GetAllMeshPaths(cfg: Config): (r: map<string, string>)
    ensures forall f: MeshFormat :: f.Key() in r <==> PathOf(FullMeshPathsOf(cfg), f).Some?
    ensures forall f: MeshFormat :: f.Key() in r ==> r[f.Key()] == PathOf(FullMeshPathsOf(cfg), f).value
    ensures forall k :: k in r ==> k in {"stl", "obj", "dae"}
  {
    var full := FullMeshPathsOf(cfg);
    var withStl := map["stl" := full.stl];
    var withObj := if full.obj.Some? then withStl["obj" := full.obj.value] else withStl;
    if full.dae.Some? then withObj["dae" := full.dae.value] else withObj
  }

  /** For the robot's configuration all three formats are available. */
  lemma RobotConfigFormats()
    ensures forall f: MeshFormat :: f.Key() in GetAllMeshPaths(ROBOT_CONFIG)
    ensures GetAllMeshPaths(ROBOT_CONFIG)["obj"] == "/meshes/obj"
    ensures forall f: MeshFormat :: GetMeshPath(ROBOT_CONFIG, f).Success?
  {
    assert Obj.Key() == "obj";
  }
}
