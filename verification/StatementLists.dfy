/** The classifier's lists of statement kinds, functions and schemas: crates/ownpg-core/src/classify.rs. */
module StatementLists {
  import opened Classifier

  /** The kinds of statements by class, the functions by effect, and the catalog schemas. */
  datatype Lists = Lists(reading: set<string>, writing: set<string>, procedures: set<string>, maintenance: set<string>,
                         ddl: set<string>, roles: set<string>, denied: set<string>, notifying: set<string>,
                         resetting: set<string>, locking: set<string>, catalogs: set<string>)

  /** A kind in no list is refused. */
  function ClassOf(kind: string, lists: Lists): Verdict {
    if kind in lists.reading then Classed(Class.Read)
    else if kind in lists.writing then Classed(Class.Write)
    else if kind in lists.procedures then Classed(Class.Procedure)
    else if kind in lists.maintenance then Classed(Class.Maintenance)
    else if kind in lists.ddl then Classed(Class.Ddl)
    else if kind in lists.roles then Classed(Class.Roles)
    else Refused
  }

  function EffectOf(name: string, lists: Lists): Effect {
    if name in lists.denied then Outside
    else if name in lists.notifying then Notifies
    else if name in lists.resetting || name in lists.locking then Writes
    else Harmless
  }

  /** What the gate needs of the lists: SELECT INTO counts as a statement that is no read, and no function name holds a
      dot. */
  ghost predicate Fit(lists: Lists) {
    && "CreateTableAsStmt" !in lists.reading
    && forall name :: name in lists.denied + lists.notifying + lists.resetting + lists.locking ==> '.' !in name
  }

  function ReadKinds(): set<string> {
    {"SelectStmt", "VariableShowStmt", "ExplainStmt", "CopyStmt", "RawStmt"}
  }

  function WriteKinds(): set<string> {
    {"InsertStmt", "UpdateStmt", "DeleteStmt", "MergeStmt"}
  }

  function ProcedureKinds(): set<string> {
    {"DoStmt", "CallStmt"}
  }

  function MaintenanceKinds(): set<string> {
    {"VacuumStmt", "ReindexStmt", "ClusterStmt", "CheckPointStmt", "RefreshMatViewStmt"}
  }

  function DdlKinds(): set<string> {
    {"CreateStmt", "AlterTableStmt", "DropStmt", "TruncateStmt", "IndexStmt", "ViewStmt", "CreateSeqStmt",
     "AlterSeqStmt", "CreateFunctionStmt", "AlterFunctionStmt", "CreateTrigStmt", "CreateEventTrigStmt",
     "AlterEventTrigStmt", "CreateEnumStmt", "AlterEnumStmt", "CreateDomainStmt", "AlterDomainStmt",
     "CreateRangeStmt", "CompositeTypeStmt", "DefineStmt", "CreateExtensionStmt", "AlterExtensionStmt",
     "AlterExtensionContentsStmt", "CommentStmt", "CreatePolicyStmt", "AlterPolicyStmt", "RenameStmt",
     "AlterObjectSchemaStmt", "AlterObjectDependsStmt", "AlterOwnerStmt", "CreateSchemaStmt", "CreateTableAsStmt",
     "RuleStmt", "CreateStatsStmt", "AlterStatsStmt", "CreateOpClassStmt", "CreateOpFamilyStmt", "AlterOpFamilyStmt",
     "CreateCastStmt", "CreateTransformStmt", "CreateConversionStmt", "CreateAmStmt", "SecLabelStmt",
     "AlterCollationStmt", "AlterTypeStmt", "CreatedbStmt", "DropdbStmt", "AlterDatabaseStmt", "AlterDatabaseSetStmt",
     "AlterDatabaseRefreshCollStmt", "CreatePublicationStmt", "AlterPublicationStmt", "AlterTableMoveAllStmt",
     "AlterTableSpaceOptionsStmt", "AlterOperatorStmt", "CreatePlangStmt", "CreateTableSpaceStmt",
     "DropTableSpaceStmt"}
  }

  function RoleKinds(): set<string> {
    {"CreateRoleStmt", "AlterRoleStmt", "AlterRoleSetStmt", "DropRoleStmt", "GrantStmt", "GrantRoleStmt",
     "AlterDefaultPrivilegesStmt", "DropOwnedStmt", "ReassignOwnedStmt"}
  }

  function DeniedFunctions(): set<string> {
    {"pg_read_file", "pg_read_binary_file", "pg_ls_dir", "pg_ls_logdir", "pg_ls_waldir", "pg_ls_tmpdir",
     "pg_ls_archive_statusdir", "pg_ls_logicalsnapdir", "pg_ls_logicalmapdir", "pg_ls_replslotdir", "pg_stat_file",
     "lo_import", "lo_export", "dblink", "dblink_connect", "dblink_connect_u", "dblink_exec", "dblink_send_query",
     "pg_sleep", "pg_sleep_for", "pg_sleep_until", "pg_terminate_backend", "pg_cancel_backend", "set_config",
     "pg_reload_conf", "pg_rotate_logfile", "pg_file_write", "pg_file_unlink", "pg_file_rename", "pg_logdir_ls"}
  }

  function NotifyAndLockFunctions(): set<string> {
    {"pg_notify", "pg_advisory_lock", "pg_advisory_lock_shared", "pg_try_advisory_lock",
     "pg_try_advisory_lock_shared", "pg_advisory_unlock", "pg_advisory_unlock_shared", "pg_advisory_unlock_all"}
  }

  function StatisticsResetFunctions(): set<string> {
    {"pg_stat_reset", "pg_stat_reset_shared", "pg_stat_reset_single_table_counters",
     "pg_stat_reset_single_function_counters", "pg_stat_reset_slru", "pg_stat_reset_replication_slot",
     "pg_stat_reset_subscription_stats", "pg_stat_reset_backend_stats", "pg_stat_statements_reset"}
  }

  function TransactionLockFunctions(): set<string> {
    {"pg_advisory_xact_lock", "pg_advisory_xact_lock_shared", "pg_try_advisory_xact_lock",
     "pg_try_advisory_xact_lock_shared"}
  }

  function CodeLists(): Lists {
    Lists(ReadKinds(), WriteKinds(), ProcedureKinds(), MaintenanceKinds(), DdlKinds(), RoleKinds(),
          DeniedFunctions(), NotifyAndLockFunctions(), StatisticsResetFunctions(), TransactionLockFunctions(),
          {"pg_catalog", "information_schema", "pg_temp"})
  }

  lemma DeniedAreDotless(name: string)
    requires name in DeniedFunctions()
    ensures '.' !in name
  {
  }

  lemma NotifyingAreDotless(name: string)
    requires name in NotifyAndLockFunctions()
    ensures '.' !in name
  {
  }

  lemma ResettingAreDotless(name: string)
    requires name in StatisticsResetFunctions()
    ensures '.' !in name
  {
  }

  lemma LockingAreDotless(name: string)
    requires name in TransactionLockFunctions()
    ensures '.' !in name
  {
  }

  lemma CreatingIsNoRead()
    ensures "CreateTableAsStmt" !in ReadKinds()
  {
  }

  lemma CodeListsFit()
    ensures Fit(CodeLists())
  {
    CreatingIsNoRead();
    forall name | name in CodeLists().denied + CodeLists().notifying + CodeLists().resetting + CodeLists().locking
      ensures '.' !in name
    {
      if name in DeniedFunctions() {
        DeniedAreDotless(name);
      } else if name in NotifyAndLockFunctions() {
        NotifyingAreDotless(name);
      } else if name in StatisticsResetFunctions() {
        ResettingAreDotless(name);
      } else {
        LockingAreDotless(name);
      }
    }
  }
}
