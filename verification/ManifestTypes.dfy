/** A manifest as a value (management_manifest.go): specs name each other by manifest-local keys. */
module ManifestTypes {
  import opened Wrappers
  import NetworkManifest

  datatype ScopeSpec = ScopeSpec(key: string, name: string, description: string)

  /** parent "" is no parent; metadata None is unstated. */
  datatype ResourceSpec = ResourceSpec(key: string, name: string, resourceType: string, parent: string,
                                       scopes: seq<ScopeSpec>, metadata: Option<map<string, string>>)

  datatype PermissionSpec = PermissionSpec(key: string, action: string, description: string)

  datatype GrantSpec = GrantSpec(permission: string, effect: string, scopes: seq<string>)

  datatype RoleSpec = RoleSpec(key: string, name: string, description: string, isGlobal: bool, grants: seq<GrantSpec>)

  /** resource "" is a plain binding. */
  datatype RoleBinding = RoleBinding(role: string, resource: string, noInherit: bool)

  datatype GroupSpec = GroupSpec(key: string, name: string, description: string, roles: seq<RoleBinding>)

  datatype UserSpec = UserSpec(key: string, username: string, email: string, initialPassword: string,
                               roles: seq<RoleBinding>, groups: seq<string>)

  datatype ServiceAccountSpec = ServiceAccountSpec(key: string, name: string, description: string,
                                                   roles: seq<RoleBinding>)

  datatype Manifest = Manifest(resources: seq<ResourceSpec>, permissions: seq<PermissionSpec>, roles: seq<RoleSpec>,
                               groups: seq<GroupSpec>, users: seq<UserSpec>, serviceAccounts: seq<ServiceAccountSpec>,
                               network: NetworkManifest.NetworkSpec)

  function ResourceKeys(resources: seq<ResourceSpec>): seq<string> {
    seq(|resources|, i requires 0 <= i < |resources| => resources[i].key)
  }
}
