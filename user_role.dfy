/** The administrator roles of internal/app/admin/user/constant.go: a role
    is a plain string, valid exactly when the label table names it. */
module UserRole {

  type Role = string

  const RoleSuperAdmin: Role := "super_admin"
  const RoleAdmin: Role := "admin"
  const RoleProductManager: Role := "product_manager"
  const RoleMarketing: Role := "marketing"
  const RoleOrderManager: Role := "order_manager"
  const RoleCustomerService: Role := "customer_service"
  const RoleFinance: Role := "finance"

  /** Display labels for the front end. */
  const RoleLabels: map<Role, string> := map[
    RoleSuperAdmin := "超级管理员",
    RoleAdmin := "系统管理员",
    RoleProductManager := "商品管理员",
    RoleMarketing := "营销运营",
    RoleOrderManager := "订单/仓储",
    RoleCustomerService := "客服专员",
    RoleFinance := "财务专员"
  ]

  const UnknownLabel := "未知角色"

  /** IsValid: exactly the seven role strings, matched exactly. */
  predicate IsValid(r: Role)
  {
    r in RoleLabels
  }

  /** String: the underlying string itself. */
  function String(r: Role): (s: string)
    ensures s == r
  {
    r
  }

  /** Label: the table label of a valid role, "未知角色" for anything else. */
  function Label(r: Role): (l: string)
    ensures IsValid(r) ==> l == RoleLabels[r]
    ensures !IsValid(r) ==> l == UnknownLabel
  {
    if r in RoleLabels then RoleLabels[r] else UnknownLabel
  }

  /** The whitelist is exactly the seven role constants. */
  lemma ValidRoles(r: Role)
    ensures IsValid(r) <==>
              r in {"super_admin", "admin", "product_manager", "marketing", "order_manager", "customer_service", "finance"}
  {
  }

  /** Matching is exact: no change of case and no empty role is accepted. */
  lemma MatchingIsExact()
    ensures !IsValid("Admin") && !IsValid("ADMIN") && !IsValid("") && !IsValid(" admin")
  {
  }

  /** No table label is the unknown label, so a role is valid exactly when
      its label is a known one. */
  lemma ValidIffLabelled(r: Role)
    ensures IsValid(r) <==> Label(r) != UnknownLabel
  {
  }

  /** The seven labels are pairwise distinct. */
  lemma LabelsDistinct(a: Role, b: Role)
    requires IsValid(a) && IsValid(b) && a != b
    ensures Label(a) != Label(b)
  {
  }
}
