/**
 * The roles and permissions seeder (RolesPermissionsSeeder.php): it creates
 * the permissions and the three roles when missing, grants each role its
 * permissions, and creates the three default users with their roles. Every
 * step either finds what it would create or adds to what is there, so running
 * the seeder again changes nothing.
 */
module Permisos {

  /** The permissions the seeder creates, in its order. */
  const Lista: seq<string> := [
    "ver_usuarios", "crear_usuarios", "editar_usuarios", "editar_roles_usuario", "eliminar_usuarios",
    "ver_gestiones", "crear_gestiones", "editar_gestiones", "eliminar_gestiones", "activar_gestiones",
    "ver_docentes", "crear_docentes", "editar_docentes", "eliminar_docentes",
    "ver_programas", "crear_programas", "editar_programas", "eliminar_programas", "coordinar_programas",
    "ver_certificaciones", "crear_certificaciones", "editar_certificaciones", "eliminar_certificaciones",
    "emitir_certificaciones",
    "ver_tesis", "crear_tesis", "editar_tesis", "eliminar_tesis", "aprobar_tesis",
    "cargar_excel", "procesar_excel", "eliminar_cargas_excel", "reprocesar_excel",
    "ver_reportes", "generar_reportes", "exportar_reportes"]

  /** The user-management permissions the director does not get. */
  const DeUsuarios: set<string> := {"crear_usuarios", "editar_usuarios", "eliminar_usuarios"}

  /** The permissions the secretary gets. */
  const DeSecretario: seq<string> := [
    "ver_gestiones", "ver_docentes", "crear_docentes", "editar_docentes", "ver_programas", "crear_programas",
    "editar_programas", "ver_certificaciones", "crear_certificaciones", "editar_certificaciones", "ver_tesis",
    "crear_tesis", "editar_tesis", "cargar_excel", "procesar_excel", "ver_reportes"]

  const Administrador := "administrador"
  const Director := "director"
  const Secretario := "secretario"

  /** A user as firstOrCreate looks it up (by e-mail) and creates it (with a name). */
  datatype Usuario = Usuario(email: string, nombre: string)

  /** The default users, each with the role it is given. */
  const PorDefecto: seq<(Usuario, string)> := [
    (Usuario("admin@postgrado.uagrm.edu.bo", "Administrador Sistema"), Administrador),
    (Usuario("director@postgrado.uagrm.edu.bo", "Director Postgrado"), Director),
    (Usuario("secretario@postgrado.uagrm.edu.bo", "Secretario Académico"), Secretario)]

  /**
   * The tables the seeder writes: permission names, role names, the
   * permissions granted to each role, the users, and the roles of each user
   * (by e-mail).
   */
  datatype Base = Base(
    permisos: seq<string>,
    roles: seq<string>,
    concedidos: map<string, set<string>>,
    usuarios: seq<Usuario>,
    asignados: map<string, set<string>>)

  const Vacia := Base([], [], map[], [], map[])

  function Elementos(s: seq<string>): set<string> {
    set x | x in s
  }

  predicate SinRepetidos(s: seq<string>) {
    forall i, j :: 0 <= i < j < |s| ==> s[i] != s[j]
  }

  /** The entry of `k`, empty when it has none. */
  function De(m: map<string, set<string>>, k: string): set<string> {
    if k in m then m[k] else {}
  }

  // One step each

  /** `Permission::firstOrCreate`: the permission is added unless it exists. */
  function ConPermiso(b: Base, n: string): (r: Base)
    ensures Elementos(r.permisos) == Elementos(b.permisos) + {n}
    ensures r.(permisos := b.permisos) == b
    ensures SinRepetidos(b.permisos) ==> SinRepetidos(r.permisos)
  {
    if n in b.permisos then b else b.(permisos := b.permisos + [n])
  }

  /** The permissions created one after the other. */
  function ConPermisos(b: Base, ns: seq<string>): (r: Base)
    ensures Elementos(r.permisos) == Elementos(b.permisos) + Elementos(ns)
    ensures r.(permisos := b.permisos) == b
    ensures SinRepetidos(b.permisos) ==> SinRepetidos(r.permisos)
    ensures (forall n :: n in ns ==> n in b.permisos) ==> r == b
    decreases |ns|
  {
    if ns == [] then b
    else
      var previa := ConPermisos(b, ns[..|ns| - 1]);
      assert ns == ns[..|ns| - 1] + [ns[|ns| - 1]];
      ConPermiso(previa, ns[|ns| - 1])
  }

  /** `Role::firstOrCreate`. */
  function ConRol(b: Base, rol: string): (r: Base)
    ensures Elementos(r.roles) == Elementos(b.roles) + {rol}
    ensures r.(roles := b.roles) == b
  {
    if rol in b.roles then b else b.(roles := b.roles + [rol])
  }

  /** `givePermissionTo`: the permissions are added to those the role already has. */
  function Conceder(b: Base, rol: string, ps: set<string>): (r: Base)
    ensures De(r.concedidos, rol) == De(b.concedidos, rol) + ps
    ensures forall otro :: otro != rol ==> De(r.concedidos, otro) == De(b.concedidos, otro)
    ensures r.(concedidos := b.concedidos) == b
  {
    b.(concedidos := b.concedidos[rol := De(b.concedidos, rol) + ps])
  }

  predicate TieneUsuario(b: Base, email: string) {
    exists i :: 0 <= i < |b.usuarios| && b.usuarios[i].email == email
  }

  /** `User::firstOrCreate(['email' => ...], [...])`: a user with that e-mail is kept as it is. */
  function ConUsuario(b: Base, u: Usuario): (r: Base)
    ensures TieneUsuario(r, u.email)
    ensures TieneUsuario(b, u.email) ==> r == b
    ensures r.(usuarios := b.usuarios) == b
  {
    if TieneUsuario(b, u.email) then b
    else
      assert (b.usuarios + [u])[|b.usuarios|].email == u.email;
      b.(usuarios := b.usuarios + [u])
  }

  /** `assignRole`: the role is added to those the user already has. */
  function Asignar(b: Base, email: string, rol: string): (r: Base)
    ensures De(r.asignados, email) == De(b.asignados, email) + {rol}
    ensures forall otro :: otro != email ==> De(r.asignados, otro) == De(b.asignados, otro)
    ensures r.(asignados := b.asignados) == b
  {
    b.(asignados := b.asignados[email := De(b.asignados, email) + {rol}])
  }

  // The whole seeder

  /**
   * What `run` creates: the permissions, those withheld from the director,
   * the secretary's, and the default users with their roles.
   */
  datatype Plan = Plan(
    permisos: seq<string>,
    sinDirector: set<string>,
    deSecretario: seq<string>,
    usuarios: seq<(Usuario, string)>)

  const Semilla := Plan(Lista, DeUsuarios, DeSecretario, PorDefecto)

  /** The secretary's permissions are all created, and none is withheld from the director. */
  predicate Coherente(p: Plan) {
    Elementos(p.deSecretario) <= Elementos(p.permisos) - p.sinDirector
  }

  /** Each of the secretary's permissions is one the seeder creates. */
  lemma SecretarioEnLista()
    ensures forall i :: 0 <= i < |DeSecretario| ==> DeSecretario[i] in Lista
  {
    assert DeSecretario == [Lista[5], Lista[10], Lista[11], Lista[12], Lista[14], Lista[15], Lista[16], Lista[19],
      Lista[20], Lista[21], Lista[24], Lista[25], Lista[26], Lista[29], Lista[30], Lista[33]];
  }

  /** None of the secretary's permissions manages users. */
  lemma SecretarioSinUsuarios()
    ensures forall i :: 0 <= i < |DeSecretario| ==> DeSecretario[i] !in DeUsuarios
  {
  }

  lemma SemillaCoherente()
    ensures Coherente(Semilla)
  {
    SecretarioEnLista();
    SecretarioSinUsuarios();
    forall x | x in Elementos(DeSecretario)
      ensures x in Elementos(Lista) - DeUsuarios
    {
      var i :| 0 <= i < |DeSecretario| && DeSecretario[i] == x;
    }
  }

  /** The three roles created, then granted all permissions, all but `sinDirector`, and `deSecretario`. */
  function Concesiones(b: Base, sinDirector: set<string>, deSecretario: seq<string>): Base {
    var conRoles := ConRol(ConRol(ConRol(b, Administrador), Director), Secretario);
    var todos := Elementos(conRoles.permisos);
    var b1 := Conceder(conRoles, Administrador, todos);
    var b2 := Conceder(b1, Director, todos - sinDirector);
    Conceder(b2, Secretario, Elementos(deSecretario))
  }

  /** The permissions, then the roles, then the grants, as `run` does them. */
  function ConRolesConcedidos(b: Base, p: Plan): Base {
    Concesiones(ConPermisos(b, p.permisos), p.sinDirector, p.deSecretario)
  }

  /** The default users, each created if missing and then given its role. */
  function ConUsuarios(b: Base, us: seq<(Usuario, string)>): Base
    decreases |us|
  {
    if us == [] then b
    else
      var u := us[|us| - 1];
      Asignar(ConUsuario(ConUsuarios(b, us[..|us| - 1]), u.0), u.0.email, u.1)
  }

  /** The database after `run`. */
  function Sembrado(b: Base, p: Plan): Base {
    ConUsuarios(ConRolesConcedidos(b, p), p.usuarios)
  }

  // What the seeder guarantees

  /** Creating and assigning users leaves permissions, roles and grants as they are. */
  lemma {:induction false} ConUsuariosConserva(b: Base, us: seq<(Usuario, string)>)
    ensures var r := ConUsuarios(b, us);
      r.permisos == b.permisos && r.roles == b.roles && r.concedidos == b.concedidos
    ensures forall i :: 0 <= i < |us| ==>
      TieneUsuario(ConUsuarios(b, us), us[i].0.email)
      && us[i].0.email in ConUsuarios(b, us).asignados && us[i].1 in ConUsuarios(b, us).asignados[us[i].0.email]
    decreases |us|
  {
    if us != [] {
      var previa := ConUsuarios(b, us[..|us| - 1]);
      ConUsuariosConserva(b, us[..|us| - 1]);
      var u := us[|us| - 1];
      var conU := ConUsuario(previa, u.0);
      var r := Asignar(conU, u.0.email, u.1);
      assert r == ConUsuarios(b, us);
      forall i | 0 <= i < |us|
        ensures TieneUsuario(r, us[i].0.email)
        ensures us[i].0.email in r.asignados && us[i].1 in r.asignados[us[i].0.email]
      {
        if i < |us| - 1 {
          assert us[i] == us[..|us| - 1][i];
          var j :| 0 <= j < |previa.usuarios| && previa.usuarios[j].email == us[i].0.email;
          assert conU.usuarios[..|previa.usuarios|] == previa.usuarios;
          assert conU.usuarios[j].email == us[i].0.email;
          assert us[i].1 in De(previa.asignados, us[i].0.email);
        }
      }
    }
  }

  /**
   * run: the planned permissions exist afterwards, without duplicates if
   * there were none; the administrator has every permission in the table,
   * the director every one but those withheld, the secretary its own, each
   * on top of what it had; no other role's grants change; the default users
   * exist with their roles.
   */
  lemma SembradoConcede(b: Base, p: Plan)
    ensures var s := Sembrado(b, p);
      && Elementos(s.permisos) == Elementos(b.permisos) + Elementos(p.permisos)
      && (SinRepetidos(b.permisos) ==> SinRepetidos(s.permisos))
      && Elementos(s.roles) == Elementos(b.roles) + {Administrador, Director, Secretario}
      && Administrador in s.concedidos && Director in s.concedidos && Secretario in s.concedidos
      && De(s.concedidos, Administrador) == De(b.concedidos, Administrador) + Elementos(s.permisos)
      && De(s.concedidos, Director) == De(b.concedidos, Director) + (Elementos(s.permisos) - p.sinDirector)
      && De(s.concedidos, Secretario) == De(b.concedidos, Secretario) + Elementos(p.deSecretario)
      && (forall otro :: otro != Administrador && otro != Director && otro != Secretario ==>
            De(s.concedidos, otro) == De(b.concedidos, otro))
      && forall i :: 0 <= i < |p.usuarios| ==>
           TieneUsuario(s, p.usuarios[i].0.email) && p.usuarios[i].1 in De(s.asignados, p.usuarios[i].0.email)
  {
    var c := ConRolesConcedidos(b, p);
    ConUsuariosConserva(c, p.usuarios);
  }

  /** Seeding an empty database grants exactly the planned sets. */
  lemma SembradoDesdeVacia(p: Plan)
    ensures var s := Sembrado(Vacia, p);
      && Elementos(s.permisos) == Elementos(p.permisos)
      && De(s.concedidos, Administrador) == Elementos(p.permisos)
      && De(s.concedidos, Director) == Elementos(p.permisos) - p.sinDirector
      && De(s.concedidos, Secretario) == Elementos(p.deSecretario)
  {
    SembradoConcede(Vacia, p);
  }

  /** Each role's grants include those of the role below it. */
  predicate Cadena(b: Base) {
    De(b.concedidos, Secretario) <= De(b.concedidos, Director) <= De(b.concedidos, Administrador)
  }

  /** Seeding keeps the secretary within the director within the administrator; from an empty database it creates that chain. */
  lemma CadenaSembrada(b: Base, p: Plan)
    requires Coherente(p) && Cadena(b)
    ensures Cadena(Sembrado(b, p))
  {
    SembradoConcede(b, p);
  }

  /** Grants and roles already in place are found, not duplicated. */
  lemma ConRolesConcedidosEstable(s: Base, p: Plan)
    requires Elementos(p.permisos) <= Elementos(s.permisos)
    requires {Administrador, Director, Secretario} <= Elementos(s.roles)
    requires Administrador in s.concedidos && Director in s.concedidos && Secretario in s.concedidos
    requires Elementos(s.permisos) <= s.concedidos[Administrador]
    requires Elementos(s.permisos) - p.sinDirector <= s.concedidos[Director]
    requires Elementos(p.deSecretario) <= s.concedidos[Secretario]
    ensures ConRolesConcedidos(s, p) == s
  {
    assert forall n :: n in p.permisos ==> n in Elementos(s.permisos);
    assert ConPermisos(s, p.permisos) == s;
    assert ConRol(ConRol(ConRol(s, Administrador), Director), Secretario) == s;
    var todos := Elementos(s.permisos);
    assert De(s.concedidos, Administrador) + todos == s.concedidos[Administrador];
    assert s.concedidos[Administrador := De(s.concedidos, Administrador) + todos] == s.concedidos;
    assert De(s.concedidos, Director) + (todos - p.sinDirector) == s.concedidos[Director];
    assert s.concedidos[Director := De(s.concedidos, Director) + (todos - p.sinDirector)] == s.concedidos;
    assert De(s.concedidos, Secretario) + Elementos(p.deSecretario) == s.concedidos[Secretario];
    assert s.concedidos[Secretario := De(s.concedidos, Secretario) + Elementos(p.deSecretario)] == s.concedidos;
  }

  /** Users that exist with their roles are left as they are. */
  lemma {:induction false} ConUsuariosEstable(s: Base, us: seq<(Usuario, string)>)
    requires forall i :: 0 <= i < |us| ==>
      TieneUsuario(s, us[i].0.email) && us[i].0.email in s.asignados && us[i].1 in s.asignados[us[i].0.email]
    ensures ConUsuarios(s, us) == s
    decreases |us|
  {
    if us != [] {
      var previas := us[..|us| - 1];
      assert forall i :: 0 <= i < |previas| ==> previas[i] == us[i];
      ConUsuariosEstable(s, previas);
      var u := us[|us| - 1];
      assert ConUsuario(s, u.0) == s;
      assert us[|us| - 1] == u;
      assert De(s.asignados, u.0.email) + {u.1} == s.asignados[u.0.email];
      assert s.asignados[u.0.email := De(s.asignados, u.0.email) + {u.1}] == s.asignados;
    }
  }

  /** firstOrCreate and additive grants: running the seeder twice is running it once. */
  lemma SembrarIdempotente(b: Base, p: Plan)
    ensures Sembrado(Sembrado(b, p), p) == Sembrado(b, p)
  {
    var s := Sembrado(b, p);
    SembradoConcede(b, p);
    ConUsuariosConserva(ConRolesConcedidos(b, p), p.usuarios);
    ConRolesConcedidosEstable(s, p);
    ConUsuariosEstable(s, p.usuarios);
  }

  /**
   * The seeder on a fresh database: the secretary's permissions are within
   * the director's, the director's within the administrator's, and the
   * director manages no users.
   */
  lemma SemillaDesdeVacia()
    ensures var s := Sembrado(Vacia, Semilla);
      && Cadena(s)
      && De(s.concedidos, Director) * DeUsuarios == {}
      && De(s.concedidos, Administrador) == Elementos(Lista)
  {
    SemillaCoherente();
    SembradoDesdeVacia(Semilla);
  }

  /** The tables the seeder writes, updated in place. */
  class BaseDeDatos {
    var permisos: seq<string>
    var roles: seq<string>
    var concedidos: map<string, set<string>>
    var usuarios: seq<Usuario>
    var asignados: map<string, set<string>>

    function Estado(): Base
      reads this
    {
      Base(permisos, roles, concedidos, usuarios, asignados)
    }

    constructor()
      ensures Estado() == Vacia
    {
      permisos, roles, concedidos, usuarios, asignados := [], [], map[], [], map[];
    }

    method CrearPermiso(n: string)
      modifies this
      ensures Estado() == ConPermiso(old(Estado()), n)
    {
      if n !in permisos {
        permisos := permisos + [n];
      }
    }

    method CrearRol(rol: string)
      modifies this
      ensures Estado() == ConRol(old(Estado()), rol)
    {
      if rol !in roles {
        roles := roles + [rol];
      }
    }

    method DarPermisos(rol: string, ps: set<string>)
      modifies this
      ensures Estado() == Conceder(old(Estado()), rol, ps)
    {
      var previos := if rol in concedidos then concedidos[rol] else {};
      concedidos := concedidos[rol := previos + ps];
    }

    method CrearUsuario(u: Usuario)
      modifies this
      ensures Estado() == ConUsuario(old(Estado()), u)
    {
      if !TieneUsuario(Estado(), u.email) {
        usuarios := usuarios + [u];
      }
    }

    method AsignarRol(email: string, rol: string)
      modifies this
      ensures Estado() == Asignar(old(Estado()), email, rol)
    {
      var previos := if email in asignados then asignados[email] else {};
      asignados := asignados[email := previos + {rol}];
    }

    /** The `foreach` over the permission names, one firstOrCreate each. */
    method CrearPermisos(ns: seq<string>)
      modifies this
      ensures Estado() == ConPermisos(old(Estado()), ns)
    {
      for i := 0 to |ns|
        invariant Estado() == ConPermisos(old(Estado()), ns[..i])
      {
        assert ns[..i + 1][..i] == ns[..i];
        CrearPermiso(ns[i]);
      }
      assert ns[..|ns|] == ns;
    }

    /** The default users, each created if missing and then given its role. */
    method CrearUsuarios(us: seq<(Usuario, string)>)
      modifies this
      ensures Estado() == ConUsuarios(old(Estado()), us)
    {
      for i := 0 to |us|
        invariant Estado() == ConUsuarios(old(Estado()), us[..i])
      {
        assert us[..i + 1][..i] == us[..i];
        CrearUsuario(us[i].0);
        AsignarRol(us[i].0.email, us[i].1);
      }
      assert us[..|us|] == us;
    }

    /** The roles created, then `Permission::all()`, the director's and the secretary's granted. */
    method CrearRolesYConceder(sinDirector: set<string>, deSecretario: seq<string>)
      modifies this
      ensures Estado() == Concesiones(old(Estado()), sinDirector, deSecretario)
    {
      CrearRol(Administrador);
      CrearRol(Director);
      CrearRol(Secretario);
      var todos := set n | n in permisos;
      DarPermisos(Administrador, todos);
      DarPermisos(Director, todos - sinDirector);
      DarPermisos(Secretario, set n | n in deSecretario);
    }

    /**
     * run: every permission of the list, the three roles, the grants, and
     * the three default users with their roles; the result is the seeded
     * database, so the lemmas above apply to it.
     */
    method Sembrar()
      modifies this
      ensures Estado() == Sembrado(old(Estado()), Semilla)
    {
      CrearPermisos(Lista);
      CrearRolesYConceder(DeUsuarios, DeSecretario);
      CrearUsuarios(PorDefecto);
    }
  }
}
